/**
  The `CameraChatApp` screen component: its state cells (`messages`,
  `inputMessage`, `isCameraOn`, `cameraError`) and refs (`videoRef`,
  `streamRef`) become fields, its handlers become methods.  The chat
  handlers compute the new timeline with the functions of module Chat; the
  camera handlers work on the media objects in place.

  `videoRef` holds the `<video>` element while React has it mounted; it
  changes only through AttachVideo, so whether a surface is present when an
  acquisition settles is an explicit part of the state, never assumed.
 */
module CameraChat {
  import JsText
  import Chat
  import Media

  const AccessError: string := "Unable to access camera. Please check permissions."

  class CameraChatApp {
    var messages: seq<Chat.Message>
    var inputMessage: string
    /** Reply timers scheduled and not yet fired, oldest first. */
    var pending: seq<Chat.PendingReply>

    var isCameraOn: bool
    var cameraError: string
    var streamRef: Media.MediaStream?
    var videoRef: Media.VideoSurface?
    /** Every `getUserMedia` request made so far. */
    ghost var requests: seq<Media.MediaConstraints>

    /** The chat part of the state as a value. */
    function Timeline(): Chat.ChatState
      reads this
    {
      Chat.ChatState(messages, inputMessage, pending)
    }

    /** The timeline keeps its invariant; the camera counts as on exactly
        when a stream is held. */
    ghost predicate Valid()
      reads this
    {
      && Chat.Inv(Timeline())
      && (isCameraOn <==> streamRef != null)
    }

    /** Mounting: one welcome message, empty input, camera off, no error,
        no stream, no surface, no request made. */
    constructor ()
      ensures Valid()
      ensures messages == [Chat.Message(1, "Welcome to the chat!", Chat.System)]
      ensures inputMessage == "" && pending == []
      ensures !isCameraOn && cameraError == "" && streamRef == null && videoRef == null
      ensures requests == []
    {
      messages := [Chat.Welcome];
      inputMessage := "";
      pending := [];
      isCameraOn := false;
      cameraError := "";
      streamRef := null;
      videoRef := null;
      requests := [];
      Chat.InitialState();
    }

    /** The input field's change handler. */
    method EditInput(text: string)
      requires Valid()
      modifies this`inputMessage
      ensures Valid()
      ensures inputMessage == text
    {
      inputMessage := text;
    }

    /** `sendMessage`: ignored when the input is blank; otherwise appends the
        user message, clears the input and schedules one reply. */
    method SendMessage()
      requires Valid()
      modifies this`messages, this`inputMessage, this`pending
      ensures Valid()
      ensures Timeline() == Chat.Submit(old(Timeline()))
      ensures old(messages) <= messages
    {
      ghost var before := Timeline();
      if !JsText.IsBlank(inputMessage) {
        var newMessage := Chat.Message(|messages| + 1, inputMessage, Chat.User);
        var reply := Chat.PendingReply(|messages| + 2, Chat.ReplyDelay);
        messages := messages + [newMessage];
        inputMessage := "";
        pending := pending + [reply];
      }
      Chat.SubmitPreservesInv(before);
    }

    /** The oldest reply timer fires: its bot message, with the id captured
        at submission, goes after the current messages. */
    method FireReply()
      requires Valid()
      requires pending != []
      modifies this`messages, this`pending
      ensures Valid()
      ensures Timeline() == Chat.FireNext(old(Timeline()))
      ensures old(messages) <= messages
    {
      ghost var before := Timeline();
      var response := Chat.Message(pending[0].id, Chat.ReplyText, Chat.Bot);
      messages := messages + [response];
      pending := pending[1..];
      Chat.FirePreservesInv(before);
    }

    /** After a render has been committed, `videoRef` holds the `<video>`
        element exactly when that render showed the camera as on: the
        element is mounted only while `isCameraOn` is true. */
    predicate Committed()
      reads this
    {
      (videoRef != null) == isCameraOn
    }

    /** React committing a render: the `<video>` element `v` is attached
        when the flag is on, and `videoRef` is set back to null when it is
        off. */
    method AttachVideo(v: Media.VideoSurface?)
      requires (v != null) == isCameraOn
      modifies this`videoRef
      ensures Timeline() == old(Timeline())
      ensures videoRef == v && Committed()
    {
      videoRef := v;
    }

    /** `startCamera`, with the outcome of its one `getUserMedia` request.
        Rejected: the error is set and nothing else changes.  Granted with a
        surface present: the stream is bound and held, the camera is on and
        the error cleared.  Granted with no surface: nothing changes, and the
        stream is neither held nor stopped.  The button calls it only while
        the camera is off, when no `<video>` element is mounted, so from the
        screen only the no-surface branches are ever taken. */
    method StartCamera(outcome: Media.Acquisition)
      requires Valid()
      modifies this`isCameraOn, this`cameraError, this`streamRef, this`requests, videoRef
      ensures Valid()
      ensures Timeline() == old(Timeline())
      ensures requests == old(requests) + [Media.CameraRequest]
      ensures videoRef == old(videoRef)
      ensures outcome.Denied? ==>
        && cameraError == AccessError
        && isCameraOn == old(isCameraOn) && streamRef == old(streamRef)
        && (videoRef != null ==> videoRef.srcObject == old(videoRef.srcObject))
      ensures outcome.Granted? && videoRef != null ==>
        && videoRef.srcObject == outcome.stream && streamRef == outcome.stream
        && isCameraOn && cameraError == ""
      ensures outcome.Granted? && videoRef == null ==>
        && isCameraOn == old(isCameraOn) && streamRef == old(streamRef)
        && cameraError == old(cameraError)
      ensures outcome.Granted? ==>
        forall i :: 0 <= i < |outcome.stream.tracks| ==>
          outcome.stream.tracks[i].stopped == old(outcome.stream.tracks[i].stopped)
    {
      requests := requests + [Media.CameraRequest];
      match outcome
      case Granted(stream) =>
        if videoRef != null {
          videoRef.srcObject := stream;
          streamRef := stream;
          isCameraOn := true;
          cameraError := "";
        }
      case Denied =>
        cameraError := AccessError;
    }

    /** `stopCamera`: every track of a held stream is stopped, the stream is
        let go, a present surface is unbound and the camera is off; the
        error message is left as it was.  With nothing held it only unbinds
        and switches off, so a second call changes nothing. */
    method StopCamera()
      requires Valid()
      modifies this`streamRef, this`isCameraOn, videoRef
      modifies if streamRef != null then streamRef.TrackSet() else {}
      ensures Valid()
      ensures Timeline() == old(Timeline())
      ensures old(streamRef) != null ==> old(streamRef).AllStopped()
      ensures streamRef == null && !isCameraOn
      ensures videoRef == old(videoRef) && (videoRef != null ==> videoRef.srcObject == null)
    {
      if streamRef != null {
        streamRef.StopAll();
        streamRef := null;
      }
      if videoRef != null {
        videoRef.srcObject := null;
      }
      isCameraOn := false;
    }

    /** The camera button, pressed on a committed render: stops when on,
        otherwise starts with the given outcome.  Only the start branch asks
        for a stream.  A committed render with the camera off has no
        `<video>` element, so the start finds `videoRef` null: a refusal
        sets the error, and a granted stream is neither held nor stopped,
        leaving the camera off and the error as it was. */
    method ToggleCamera(outcome: Media.Acquisition)
      requires Valid() && Committed()
      modifies this`isCameraOn, this`cameraError, this`streamRef, this`requests, videoRef
      modifies if streamRef != null then streamRef.TrackSet() else {}
      ensures Valid()
      ensures Timeline() == old(Timeline())
      ensures videoRef == old(videoRef)
      ensures old(isCameraOn) ==>
        && requests == old(requests) && old(streamRef).AllStopped()
        && streamRef == null && !isCameraOn && cameraError == old(cameraError)
        && videoRef != null && videoRef.srcObject == null
      ensures !old(isCameraOn) ==>
        && requests == old(requests) + [Media.CameraRequest]
        && !isCameraOn && streamRef == null && videoRef == null
      ensures !old(isCameraOn) && outcome.Denied? ==> cameraError == AccessError
      ensures !old(isCameraOn) && outcome.Granted? ==>
        && cameraError == old(cameraError)
        && forall i :: 0 <= i < |outcome.stream.tracks| ==>
             outcome.stream.tracks[i].stopped == old(outcome.stream.tracks[i].stopped)
    {
      if isCameraOn {
        StopCamera();
      } else {
        StartCamera(outcome);
      }
    }

    /** The unmount cleanup: stops every track of a held stream and changes
        nothing else; with no stream held it does nothing. */
    method Unmount()
      modifies if streamRef != null then streamRef.TrackSet() else {}
      ensures streamRef != null ==> streamRef.AllStopped()
      ensures unchanged(this)
    {
      if streamRef != null {
        streamRef.StopAll();
      }
    }
  }

  /** Stopping again from the state a stop leaves (no stream held, camera
      off, surface unbound) changes nothing, so two stops are one. */
  method StopCameraIsIdempotent(app: CameraChatApp)
    requires app.Valid()
    requires app.streamRef == null && !app.isCameraOn
    requires app.videoRef != null ==> app.videoRef.srcObject == null
    modifies app, app.videoRef
    ensures unchanged(app)
    ensures app.videoRef != null ==> app.videoRef.srcObject == old(app.videoRef.srcObject)
  {
    app.StopCamera();
  }

  /** A fresh screen whose camera button is pressed once per outcome, each
      press followed by React committing the render that shows it, and
      then unmounted.  Every such render shows the camera off, so the commit
      leaves `videoRef` null.  The camera never turns on: every press finds no `<video>`
      element, so no stream is ever held, and no track of a granted stream
      is stopped, not even by the unmount cleanup.  The error message is
      set exactly when some request was refused, and one request is made
      per press. */
  method PressStartRepeatedly(outcomes: seq<Media.Acquisition>) returns (app: CameraChatApp)
    ensures !app.isCameraOn && app.streamRef == null && app.videoRef == null
    ensures |app.requests| == |outcomes|
    ensures app.cameraError == (if exists i :: 0 <= i < |outcomes| && outcomes[i].Denied? then AccessError else "")
    ensures forall i, t :: 0 <= i < |outcomes| && outcomes[i].Granted? && t in outcomes[i].stream.tracks ==>
      t.stopped == old(t.stopped)
  {
    app := new CameraChatApp();
    var n := 0;
    ghost var refused := false;
    while n < |outcomes|
      invariant 0 <= n <= |outcomes|
      invariant fresh(app) && app.Valid() && app.Committed()
      invariant !app.isCameraOn && app.streamRef == null && app.videoRef == null
      invariant |app.requests| == n
      invariant refused <==> exists i :: 0 <= i < n && outcomes[i].Denied?
      invariant app.cameraError == (if refused then AccessError else "")
    {
      PressStartOnce(app, outcomes[n]);
      assert (exists i :: 0 <= i < n + 1 && outcomes[i].Denied?)
         <==> refused || outcomes[n].Denied?;
      refused := refused || outcomes[n].Denied?;
      n := n + 1;
    }
    app.Unmount();
  }

  /** One press of the button on a screen whose camera is off, followed by
      React's commit: the camera stays off with nothing held or attached,
      one more request is made, and the error is set on a refusal and kept
      otherwise. */
  method PressStartOnce(app: CameraChatApp, outcome: Media.Acquisition)
    requires app.Valid() && !app.isCameraOn && app.streamRef == null && app.videoRef == null
    modifies app
    ensures app.Valid() && app.Committed()
    ensures !app.isCameraOn && app.streamRef == null && app.videoRef == null
    ensures app.requests == old(app.requests) + [Media.CameraRequest]
    ensures app.cameraError == (if outcome.Denied? then AccessError else old(app.cameraError))
  {
    app.ToggleCamera(outcome);
    app.AttachVideo(null);
  }

  /** The run the screen is evidently meant to allow, where the `<video>`
      element already exists when the request settles (as it would if the
      element were rendered whatever the flag, and only hidden while the
      camera is off): a granted start turns the camera on, holding and
      showing the stream with the error cleared, and a stop then stops
      every track of that stream, so nothing is left running. */
  method StartThenStopWithElementMounted(app: CameraChatApp, stream: Media.MediaStream)
    returns (wasOn: bool)
    requires app.Valid() && !app.isCameraOn && app.videoRef != null
    modifies app, app.videoRef, stream.TrackSet()
    ensures wasOn
    ensures app.Valid() && app.streamRef == null && !app.isCameraOn && app.cameraError == ""
    ensures stream.AllStopped()
    ensures app.videoRef != null && app.videoRef.srcObject == null
  {
    app.StartCamera(Media.Granted(stream));
    wasOn := app.isCameraOn && app.streamRef == stream && app.videoRef.srcObject == stream;
    app.StopCamera();
  }
}
