/** The recorder's fields and handlers, each proved to take one step of the pump. */
module Recorder {
  import opened Options
  import Pump

  class Recorder {
    const config: Pump.Config
    var isRecording: bool
    var isRecError: bool
    var fileOpen: bool
    var streamSet: bool
    var inFinalise: bool
    var faulted: bool
    var recordedTillNow: nat
    var freeBuffers: seq<Pump.Buffer>
    var bufferEvents: seq<bool>
    var chunkDataSize: nat
    var riffSize: nat
    var lastOutcome: Option<Pump.Outcome>
    // What the platform and the file system hold.
    var pendingReads: set<Pump.Buffer>
    var callbacksReporting: nat
    var bytesWritten: nat
    ghost var bytesLost: nat
    ghost var starts: nat
    ghost var finalised: nat

    ghost function View(): Pump.State
      reads this
    {
      Pump.State(isRecording, isRecError, fileOpen, streamSet, inFinalise, faulted,
                 recordedTillNow, freeBuffers, pendingReads, callbacksReporting, bufferEvents,
                 bytesWritten, bytesLost, chunkDataSize, riffSize, starts, finalised, lastOutcome)
    }

    constructor (config: Pump.Config)
      ensures View() == Pump.INITIAL && this.config == config
    {
      this.config := config;
      isRecording, isRecError, fileOpen, streamSet := false, false, false, false;
      inFinalise, faulted, recordedTillNow, freeBuffers := false, false, 0, [];
      bufferEvents, chunkDataSize, riffSize, lastOutcome := [], 0, 0, None;
      pendingReads, callbacksReporting, bytesWritten, bytesLost := {}, 0, 0, 0;
      starts, finalised := 0, 0;
    }

    /** Creates the file with an empty data chunk. */
    method OpenFile()
      modifies this
      ensures View() == old(View()).(fileOpen := true, written := 0, lost := 0)
    {
      fileOpen, bytesWritten, bytesLost := true, 0, 0;
    }

    method SetWavHeader()
      modifies this
      ensures View() == old(View()).(dataSize := 0, riffSize := Pump.HEADER - 8, starts := old(starts) + 1)
    {
      chunkDataSize, riffSize := 0, Pump.HEADER - 8;
      starts := starts + 1;
    }

    /** Drops stale free buffers and queues two fresh ones. */
    method QueueBuffers(first: Pump.Buffer, second: Pump.Buffer)
      modifies this`freeBuffers
      ensures freeBuffers == [first, second]
    {
      while freeBuffers != [] {
        freeBuffers := freeBuffers[1..];
      }
      freeBuffers := freeBuffers + [first];
      freeBuffers := freeBuffers + [second];
    }

    /** Submits every queued buffer. */
    method SubmitReads()
      modifies this`freeBuffers, this`pendingReads
      ensures freeBuffers == []
      ensures pendingReads == old(pendingReads) + set b | b in old(freeBuffers)
    {
      while freeBuffers != []
        invariant forall b :: b in pendingReads || b in freeBuffers <==> b in old(pendingReads) || b in old(freeBuffers)
      {
        var buffer := freeBuffers[0];
        freeBuffers := freeBuffers[1..];
        pendingReads := pendingReads + {buffer};
      }
    }

    /** Opens the file, drops stale free buffers, queues two fresh ones and submits both. */
    method StartRecording(first: Pump.Buffer, second: Pump.Buffer)
      requires Pump.Enabled(View(), config, Pump.Start(first, second))
      modifies this
      ensures View() == Pump.Started(old(View()), first, second)
      ensures isRecording && fileOpen && streamSet && recordedTillNow == 0 && bytesWritten == 0
      ensures freeBuffers == [] && pendingReads == old(pendingReads) + {first, second}
      ensures chunkDataSize == 0 && riffSize == 36
    {
      OpenFile();
      SetWavHeader();
      QueueBuffers(first, second);
      isRecording, recordedTillNow, streamSet := true, 0, true;
      SubmitReads();
    }

    /** What a completed read leaves: its bytes stored and counted, or an error. */
    method StoreBytes(ok: bool, bytes: nat, stored: nat)
      requires stored <= bytes
      modifies this
      ensures View() == if ok then old(View()).(recorded := Pump.Wrap(old(recordedTillNow) + bytes),
                                                written := old(bytesWritten) + stored,
                                                lost := old(bytesLost) + (bytes - stored))
                        else old(View()).(recording := false, recError := true)
    {
      if !ok {
        isRecording := false;
        isRecError := true;
      } else {
        bytesWritten := bytesWritten + stored;
        bytesLost := bytesLost + (bytes - stored);
        recordedTillNow := Pump.Wrap(recordedTillNow + bytes);
      }
    }

    /** A read completes: store its bytes, queue the buffer, post the event. */
    method ReadCallback(buffer: Pump.Buffer, ok: bool, bytes: nat, stored: nat)
      requires Pump.Enabled(View(), config, Pump.Deliver(buffer, ok, bytes, stored))
      modifies this
      ensures View() == Pump.Reported(Pump.Delivered(old(View()), buffer, ok, bytes, stored))
      ensures isRecording == (old(isRecording) && ok) && isRecError == (old(isRecError) || !ok)
      ensures recordedTillNow == if ok then (old(recordedTillNow) + bytes) % 0x1_0000_0000 else old(recordedTillNow)
      ensures bytesWritten == old(bytesWritten) + (if ok then stored else 0)
      ensures freeBuffers == old(freeBuffers) + [buffer] && pendingReads == old(pendingReads) - {buffer}
      ensures bufferEvents == old(bufferEvents) + [old(streamSet)]
    {
      Pump.WrapIsModulo(recordedTillNow + bytes);
      StoreBytes(ok, bytes, stored);
      pendingReads := pendingReads - {buffer};
      freeBuffers := freeBuffers + [buffer];
      bufferEvents := bufferEvents + [streamSet];
    }

    /** Stops at the limit, or submits the first free buffer. */
    method ContinueReading()
      modifies this`isRecording, this`bufferEvents, this`freeBuffers, this`pendingReads
      ensures var full := Pump.LimitReached(config, recordedTillNow);
              && isRecording == (old(isRecording) && !full)
              && bufferEvents == old(bufferEvents) + (if full then [true] else [])
              && (if full || old(freeBuffers) == []
                  then freeBuffers == old(freeBuffers) && pendingReads == old(pendingReads)
                  else freeBuffers == old(freeBuffers)[1..]
                       && pendingReads == old(pendingReads) + {old(freeBuffers)[0]})
    {
      if Pump.Wrap(recordedTillNow + Pump.HEADER + 2 * config.size) >= config.maxFileBytes {
        isRecording := false;
        bufferEvents := bufferEvents + [true];
        return;
      }
      if freeBuffers != [] {
        var buffer := freeBuffers[0];
        freeBuffers := freeBuffers[1..];
        pendingReads := pendingReads + {buffer};
      }
    }

    /** With the file open: continue reading, or begin finalising when recording has stopped or
        the capture stream is missing. */
    method ReadOrFinalise(captureOk: bool)
      modifies this`isRecording, this`isRecError, this`inFinalise
      modifies this`bufferEvents, this`freeBuffers, this`pendingReads
      ensures isRecError == (old(isRecError) || !captureOk)
      ensures inFinalise == (old(inFinalise) || !captureOk || !old(isRecording))
      ensures var on := old(isRecording) && captureOk;
              var full := Pump.LimitReached(config, recordedTillNow);
              && isRecording == (on && !full)
              && bufferEvents == old(bufferEvents) + (if on && full then [true] else [])
              && (if !on || full || old(freeBuffers) == []
                  then freeBuffers == old(freeBuffers) && pendingReads == old(pendingReads)
                  else freeBuffers == old(freeBuffers)[1..]
                       && pendingReads == old(pendingReads) + {old(freeBuffers)[0]})
    {
      if !captureOk {
        isRecording := false;
        isRecError := true;
      }
      if isRecording {
        ContinueReading();
        return;
      }
      inFinalise := true;
    }

    /** A buffer event: a null stream is fatal, a closed file ignores it. */
    method RecBufferHandler(captureOk: bool)
      requires Pump.Enabled(View(), config, Pump.Handle(captureOk))
      modifies this
      ensures View() == Pump.Handled(old(View()), config, captureOk)
      ensures faulted == (old(faulted) || !old(bufferEvents)[0])
      ensures var handled := old(bufferEvents)[0] && old(fileOpen);
              && isRecError == (old(isRecError) || (handled && !captureOk))
              && inFinalise == (old(inFinalise) || (handled && (!captureOk || !old(isRecording))))
              && (handled && !captureOk ==> !isRecording)
              && (!handled || !captureOk || !old(isRecording) ==> pendingReads == old(pendingReads))
    {
      var hasStream := bufferEvents[0];
      bufferEvents := bufferEvents[1..];
      if !hasStream {
        faulted := true;
        return;
      }
      if !fileOpen {
        return;
      }
      ReadOrFinalise(captureOk);
    }

    /** Writes the counted size and the file length into the header. */
    method PatchHeader()
      modifies this`chunkDataSize, this`riffSize
      ensures chunkDataSize == recordedTillNow
      ensures riffSize == Pump.Wrap(recordedTillNow + Pump.HEADER - 8) == (recordedTillNow + 36) % 0x1_0000_0000
    {
      Pump.WrapIsModulo(recordedTillNow + 36);
      chunkDataSize := recordedTillNow;
      riffSize := Pump.Wrap(recordedTillNow + Pump.HEADER - 8);
    }

    method NotifyClient()
      modifies this`lastOutcome, this`isRecError
      ensures lastOutcome == Some(if recordedTillNow == 0 || old(isRecError) then Pump.Error else Pump.Stopped)
      ensures !isRecError
    {
      if recordedTillNow == 0 || isRecError {
        lastOutcome := Some(Pump.Error);
      } else {
        lastOutcome := Some(Pump.Stopped);
      }
      isRecError := false;
    }

    /** Both buffers are back: patch the header, close the file, tell the client. */
    method Finalise()
      requires Pump.Enabled(View(), config, Pump.Finish)
      modifies this
      ensures View() == Pump.Finished(old(View()))
      ensures chunkDataSize == old(recordedTillNow) && riffSize == (old(recordedTillNow) + 36) % 0x1_0000_0000
      ensures !fileOpen && !streamSet && !inFinalise && !isRecError
      ensures lastOutcome == Some(if old(recordedTillNow) == 0 || old(isRecError) then Pump.Error else Pump.Stopped)
    {
      PatchHeader();
      fileOpen, streamSet := false, false;
      NotifyClient();
      inFinalise, finalised := false, finalised + 1;
    }
  }
}
