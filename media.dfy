/**
  The browser media objects the camera panel touches, reduced to what it
  uses: a capture stream is a fixed list of tracks, each of which can be
  stopped; a video surface (the `<video>` element) has a `srcObject` slot
  that a stream can be bound to.  `getUserMedia` itself is not modelled:
  its outcome is handed to the component as an `Acquisition`.
 */
module Media {

  /** The constraints of a camera request. */
  datatype MediaConstraints = MediaConstraints(width: nat, height: nat, audio: bool)

  /** The request the camera panel makes: video at 640 by 480, no audio. */
  const CameraRequest: MediaConstraints := MediaConstraints(640, 480, false)

  class Track {
    var stopped: bool

    constructor ()
      ensures !stopped
    {
      stopped := false;
    }

    /** `track.stop()`; stopping a stopped track is harmless. */
    method Stop()
      modifies this
      ensures stopped
    {
      stopped := true;
    }
  }

  class MediaStream {
    const tracks: seq<Track>

    constructor (tracks: seq<Track>)
      ensures this.tracks == tracks
    {
      this.tracks := tracks;
    }

    /** The objects `getTracks()` hands out. */
    function TrackSet(): set<Track> {
      set t | t in tracks
    }

    /** No track of the stream is still capturing. */
    predicate AllStopped()
      reads TrackSet()
    {
      forall i :: 0 <= i < |tracks| ==> tracks[i].stopped
    }

    /** `getTracks().forEach(track => track.stop())`: afterwards every track
        is stopped; no object outside the stream's tracks is touched. */
    method StopAll()
      modifies TrackSet()
      ensures AllStopped()
    {
      for i := 0 to |tracks|
        invariant forall j :: 0 <= j < i ==> tracks[j].stopped
      {
        tracks[i].Stop();
      }
    }
  }

  /** The `<video>` element; `srcObject` is the stream it shows, if any. */
  class VideoSurface {
    var srcObject: MediaStream?

    constructor ()
      ensures srcObject == null
    {
      srcObject := null;
    }
  }

  /** How a `getUserMedia` call settles: with a stream, or rejected (missing
      device, permission refused, device busy: the component does not tell
      these apart). */
  datatype Acquisition = Granted(stream: MediaStream) | Denied
}
