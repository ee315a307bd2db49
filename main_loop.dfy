/** The state `main` keeps and changes: the raw sample buffer, the global
    frame the classifier reads, the recognizer handle, and the frames handed
    to the CAN transport. Each method is proved against the functions of
    module Dispatch. */
module MainLoop {
  import opened Wrappers
  import opened FrameFilter
  import opened CanProtocol
  import opened CommandTable
  import opened WakeWord
  import opened Dispatch

  /** The operation is carried by this frame. */
  predicate Carries(protocol: Protocol, frame: CanFrame, action: Action)
    requires protocol.Valid()
  {
    match action
    case SetMotor(d) => IsMotorFrame(protocol, frame, d)
    case SetTail(p) => IsTailFrame(protocol, frame, ClampTail(p))
    case NoAction => false
  }

  /** The transport log after an actuator call for `action`: exactly one
      frame more, carrying it, for an operation; nothing for `NoAction`. */
  predicate Actuated(protocol: Protocol, before: seq<Send>, after: seq<Send>, action: Action, delivered: bool)
    requires protocol.Valid()
  {
    if action == NoAction then after == before
    else
      && |after| == |before| + 1
      && after[..|before|] == before
      && after[|before|].delivered == delivered
      && Carries(protocol, after[|before|].frame, action)
  }

  /** Number of passes that woke, counted from the back. */
  function Wakes(outcomes: seq<Outcome>): nat {
    if outcomes == [] then 0
    else Wakes(outcomes[..|outcomes| - 1]) + (if outcomes[|outcomes| - 1].Woke() then 1 else 0)
  }

  /** Number of passes that drove an actuator, counted from the back. */
  function Actuations(outcomes: seq<Outcome>): nat {
    if outcomes == [] then 0
    else Actuations(outcomes[..|outcomes| - 1]) + (if outcomes[|outcomes| - 1].Act() != NoAction then 1 else 0)
  }

  /** The frames one pass handed to the transport: the single frame
      carrying its action, or none for `NoAction`. */
  predicate PassSent(protocol: Protocol, frames: seq<Send>, action: Action, delivered: bool)
    requires protocol.Valid()
  {
    if action == NoAction then frames == []
    else |frames| == 1 && frames[0].delivered == delivered && Carries(protocol, frames[0].frame, action)
  }

  /** The transport log of several passes, pass after pass. */
  function Flatten(passes: seq<seq<Send>>): seq<Send> {
    if passes == [] then [] else Flatten(passes[..|passes| - 1]) + passes[|passes| - 1]
  }

  /** An actuator call appends to the transport log exactly what one pass
      sends: one frame for an operation, none for `NoAction`. */
  lemma ActuatedSent(protocol: Protocol, before: seq<Send>, after: seq<Send>, action: Action, delivered: bool)
    requires protocol.Valid() && Actuated(protocol, before, after, action, delivered)
    ensures |before| <= |after| && after == before + after[|before|..]
    ensures PassSent(protocol, after[|before|..], action, delivered)
  {
    if action != NoAction {
      assert after[|before|..][0] == after[|before|];
    }
  }

  /** The log of one more pass is the earlier log followed by that pass. */
  lemma FlattenSnoc(passes: seq<seq<Send>>, sent: seq<Send>)
    ensures Flatten(passes + [sent]) == Flatten(passes) + sent
  {
    assert (passes + [sent])[..|passes|] == passes;
  }

  /** After the first `|outcomes|` passes of `inputs`: each outcome is its
      pass's `StepOutcome`; the log is `base` followed by the frames of each
      pass in order, each pass's frames being its actuator call; and the
      counts of recognizers and of frames follow the outcomes. */
  predicate RunSoFar(protocol: Protocol, frameLength: nat, inputs: seq<IterationInput>,
                     classify: Classifier, recognize: Speech,
                     outcomes: seq<Outcome>, perPass: seq<seq<Send>>, base: seq<Send>, log: seq<Send>,
                     created0: nat, created: nat)
    requires protocol.Valid() && frameLength >= 1
    requires forall i :: 0 <= i < |inputs| ==> InputFits(frameLength, inputs[i])
  {
    && |outcomes| <= |inputs| && |perPass| == |outcomes|
    && (forall j :: 0 <= j < |outcomes| ==> outcomes[j] == StepOutcome(frameLength, inputs[j], classify, recognize))
    && (forall j :: 0 <= j < |outcomes| ==> PassSent(protocol, perPass[j], outcomes[j].Act(), inputs[j].delivered))
    && log == base + Flatten(perPass) && |log| == |base| + Actuations(outcomes)
    && created == created0 + Wakes(outcomes)
  }

  /** One more pass keeps `RunSoFar`. */
  lemma RunSoFarStep(protocol: Protocol, frameLength: nat, inputs: seq<IterationInput>,
                     classify: Classifier, recognize: Speech,
                     outcomes: seq<Outcome>, perPass: seq<seq<Send>>, base: seq<Send>, log: seq<Send>,
                     created0: nat, created: nat, o: Outcome, sent: seq<Send>)
    requires protocol.Valid() && frameLength >= 1
    requires forall i :: 0 <= i < |inputs| ==> InputFits(frameLength, inputs[i])
    requires RunSoFar(protocol, frameLength, inputs, classify, recognize, outcomes, perPass, base, log, created0, created)
    requires |outcomes| < |inputs|
    requires o == StepOutcome(frameLength, inputs[|outcomes|], classify, recognize)
    requires PassSent(protocol, sent, o.Act(), inputs[|outcomes|].delivered)
    ensures RunSoFar(protocol, frameLength, inputs, classify, recognize, outcomes + [o], perPass + [sent],
                     base, log + sent, created0, created + (if o.Woke() then 1 else 0))
  {
    var outcomes', perPass' := outcomes + [o], perPass + [sent];
    OutcomesSnoc(frameLength, inputs, classify, recognize, outcomes, o);
    PassesSnoc(protocol, inputs, outcomes, perPass, o, sent);
    assert outcomes'[..|outcomes|] == outcomes;
    assert |sent| == (if o.Act() == NoAction then 0 else 1);
    FlattenSnoc(perPass, sent);
    ConcatAssoc(base, Flatten(perPass), sent);
  }

  /** One more pass's outcome keeps every outcome its pass's `StepOutcome`. */
  lemma OutcomesSnoc(frameLength: nat, inputs: seq<IterationInput>, classify: Classifier, recognize: Speech,
                     outcomes: seq<Outcome>, o: Outcome)
    requires frameLength >= 1 && forall i :: 0 <= i < |inputs| ==> InputFits(frameLength, inputs[i])
    requires |outcomes| < |inputs|
    requires forall j :: 0 <= j < |outcomes| ==> outcomes[j] == StepOutcome(frameLength, inputs[j], classify, recognize)
    requires o == StepOutcome(frameLength, inputs[|outcomes|], classify, recognize)
    ensures forall j :: 0 <= j < |outcomes| + 1 ==> (outcomes + [o])[j] == StepOutcome(frameLength, inputs[j], classify, recognize)
  {
  }

  /** One more pass's frames keep every pass's frames its actuator call. */
  lemma PassesSnoc(protocol: Protocol, inputs: seq<IterationInput>, outcomes: seq<Outcome>, perPass: seq<seq<Send>>,
                   o: Outcome, sent: seq<Send>)
    requires protocol.Valid() && |outcomes| < |inputs| && |perPass| == |outcomes|
    requires forall j :: 0 <= j < |outcomes| ==> PassSent(protocol, perPass[j], outcomes[j].Act(), inputs[j].delivered)
    requires PassSent(protocol, sent, o.Act(), inputs[|outcomes|].delivered)
    ensures forall j :: 0 <= j < |outcomes| + 1 ==>
              PassSent(protocol, (perPass + [sent])[j], (outcomes + [o])[j].Act(), inputs[j].delivered)
  {
  }

  /** Concatenation of logs is associative. */
  lemma ConcatAssoc(a: seq<Send>, b: seq<Send>, c: seq<Send>)
    ensures (a + b) + c == a + (b + c)
  {
  }

  class Controller {
    const protocol: Protocol
    /** SAMPLE_LENGTH, the classifier's frame size. */
    const frameLength: nat
    /** `raw_samples`, the buffer `main` reads whole frames and chunks into. */
    const rawSamples: array<Sample>
    /** The global `audio_frame` the classifier reads (its samples before normalisation). */
    var audioFrame: seq<Sample>
    /** The recognizer handle of the current command window, if one is open. */
    var recognizer: Option<Recognizer>
    var recognizersCreated: nat
    var recognizersFreed: nat
    /** Every `send_can` call so far. */
    var sends: seq<Send>

    ghost predicate Valid()
      reads this
    {
      protocol.Valid() && frameLength >= 1 && rawSamples.Length == frameLength
    }

    /** Listening for the wake word: no recognizer is open and every one that
        was created has been freed. */
    predicate Listening()
      reads this
    {
      recognizer == None && recognizersCreated == recognizersFreed
    }

    constructor (protocol: Protocol, frameLength: nat)
      requires protocol.Valid() && frameLength >= 1
      ensures Valid() && Listening() && fresh(rawSamples)
      ensures this.protocol == protocol && this.frameLength == frameLength
      ensures audioFrame == [] && recognizersCreated == 0 && sends == []
    {
      this.protocol := protocol;
      this.frameLength := frameLength;
      rawSamples := new Sample[frameLength];
      audioFrame := [];
      recognizer := None;
      recognizersCreated, recognizersFreed := 0, 0;
      sends := [];
    }

    /** `snd_pcm_readi(audio, raw_samples, SAMPLE_LENGTH)` and its check. */
    method ReadFrame(read: Option<seq<Sample>>) returns (ok: bool)
      requires Valid() && (read.Some? ==> |read.value| == frameLength)
      modifies rawSamples
      ensures ok == read.Some?
      ensures rawSamples[..] == if ok then read.value else old(rawSamples[..])
    {
      if read.None? {
        return false;
      }
      var f := read.value;
      forall i | 0 <= i < frameLength {
        rawSamples[i] := f[i];
      }
      return true;
    }

    /** `wake_word_detected`: captures a fresh frame into `audio_frame`
        (`get_audio_frame_signal`), classifies it and scans the result. */
    method DetectWakeWord(read: Option<seq<Sample>>, classify: Classifier) returns (detected: bool)
      modifies this`audioFrame
      ensures detected == WakeFromCapture(read, classify)
      ensures audioFrame == if read.Some? then read.value else old(audioFrame)
    {
      if read.None? {
        return false;
      }
      audioFrame := read.value;
      var result := classify(audioFrame);
      if result.ClassifierError? {
        return false;
      }
      detected := ScanForWake(result.entries);
    }

    /** `send_command_motor` with CAN enabled: encode, then one `send_can`. */
    method SendCommandMotor(duty: Byte, delivered: bool)
      requires Valid()
      modifies this`sends
      ensures Actuated(protocol, old(sends), sends, SetMotor(duty), delivered)
    {
      var dados := EncodeMotor(protocol, duty);
      var frame := CanFrame(protocol.motor.id, protocol.motor.length, dados[..protocol.motor.length]);
      assert dados[..protocol.motor.length] == dados[..];
      sends := sends + [Send(frame, delivered)];
    }

    /** `send_command_tail` with CAN enabled: clamp, encode, then one `send_can`. */
    method SendCommandTail(position: Int16, delivered: bool)
      requires Valid()
      modifies this`sends
      ensures Actuated(protocol, old(sends), sends, SetTail(position), delivered)
    {
      var dados := EncodeTail(protocol, position);
      var frame := CanFrame(protocol.tail.id, protocol.tail.length, dados[..protocol.tail.length]);
      assert dados[..protocol.tail.length] == dados[..];
      sends := sends + [Send(frame, delivered)];
    }

    /** The routing chain's calls: one actuator call, or none. */
    method Actuate(action: Action, delivered: bool)
      requires Valid()
      modifies this`sends
      ensures Actuated(protocol, old(sends), sends, action, delivered)
    {
      match action
      case SetMotor(d) => SendCommandMotor(d, delivered);
      case SetTail(p) => SendCommandTail(p, delivered);
      case NoAction =>
    }

    /** Half-frame chunk read into the front of `raw_samples`. */
    method ReadChunk(chunk: Option<seq<Sample>>)
      requires Valid() && (chunk.Some? ==> |chunk.value| == frameLength / 2)
      modifies rawSamples
      ensures rawSamples[..] == Refill(old(rawSamples[..]), chunk)
    {
      if chunk.Some? {
        var c := chunk.value;
        forall i | 0 <= i < |c| {
          rawSamples[i] := c[i];
        }
      }
    }

    /** The command window: create the recognizer, poll it chunk by chunk
        while the window is open, dispatch the first parsed transcript, free
        the recognizer. */
    method CommandWindow(clock: seq<int>, chunks: seq<Option<seq<Sample>>>, recognize: Speech, delivered: bool)
      returns (end: WindowEnd)
      requires Valid() && Listening() && WindowInputs(clock, chunks, frameLength / 2)
      modifies this, rawSamples
      ensures Valid() && Listening()
      ensures var r := RunWindow(clock, chunks, recognize, old(rawSamples[..]), [], 0);
              end == r.end && rawSamples[..] == r.buffer
      ensures recognizersCreated == old(recognizersCreated) + 1
      ensures audioFrame == old(audioFrame)
      ensures Actuated(protocol, old(sends), sends, if end.Recognized? then Route(end.text) else NoAction, delivered)
    {
      ghost var buffer0 := rawSamples[..];
      recognizer := Some(Recognizer([]));
      recognizersCreated := recognizersCreated + 1;

      var comandoReconhecido := false;
      var comando := "";
      var inicio := clock[0];
      var k := 0;
      while clock[k + 1] - inicio < WindowSeconds
        invariant Valid() && k + 1 < |clock|
        invariant recognizer.Some? && recognizersCreated == recognizersFreed + 1 == old(recognizersCreated) + 1
        invariant !comandoReconhecido && sends == old(sends) && audioFrame == old(audioFrame)
        invariant RunWindow(clock, chunks, recognize, rawSamples[..], recognizer.value.fed, k)
                  == RunWindow(clock, chunks, recognize, buffer0, [], 0)
        decreases |clock| - k
      {
        ReadChunk(chunks[k]);
        var fed := recognizer.value.fed + [rawSamples[..frameLength / 2]];
        recognizer := Some(Recognizer(fed));
        var poll := recognize(fed);
        if poll.Transcript? {
          comando := poll.text;
          Actuate(Route(comando), delivered);
          comandoReconhecido := true;
          break;
        }
        k := k + 1;
      }

      recognizer := None;
      recognizersFreed := recognizersFreed + 1;
      end := if comandoReconhecido then Recognized(comando) else Expired;
    }

    /** One pass of `while (true)` in `main`. */
    method Iteration(input: IterationInput, classify: Classifier, recognize: Speech)
      returns (outcome: Outcome, ghost sent: seq<Send>)
      requires Valid() && Listening() && InputFits(frameLength, input)
      modifies this, rawSamples
      ensures Valid() && Listening()
      ensures outcome == StepOutcome(frameLength, input, classify, recognize)
      ensures recognizersCreated == old(recognizersCreated) + (if outcome.Woke() then 1 else 0)
      ensures sends == old(sends) + sent && PassSent(protocol, sent, outcome.Act(), input.delivered)
      ensures outcome == ReadFailed ==> rawSamples[..] == old(rawSamples[..]) && audioFrame == old(audioFrame)
      ensures outcome == ConstantFrame ==>
                input.frame.Some? && rawSamples[..] == input.frame.value && audioFrame == old(audioFrame)
      ensures outcome == NoWake ==>
                && input.frame.Some?
                && rawSamples[..] == input.frame.value
                && audioFrame == (if input.wakeFrame.Some? then input.wakeFrame.value else old(audioFrame))
      ensures outcome.Woke() ==>
                && input.frame.Some? && input.wakeFrame.Some?
                && rawSamples[..] == RunWindow(input.clock, input.chunks, recognize, input.frame.value, [], 0).buffer
                && audioFrame == input.wakeFrame.value
    {
      sent := [];
      var ok := ReadFrame(input.frame);
      if !ok {
        return ReadFailed, sent;
      }
      var constant := IsConstantSignal(rawSamples, frameLength);
      assert rawSamples[..frameLength] == rawSamples[..];
      if constant {
        return ConstantFrame, sent;
      }
      var woke := DetectWakeWord(input.wakeFrame, classify);
      if !woke {
        return NoWake, sent;
      }
      ghost var before := sends;
      var end := CommandWindow(input.clock, input.chunks, recognize, input.delivered);
      outcome := match end
        case Expired => TimedOut
        case Recognized(t) => Dispatched(t, Route(t));
      ActuatedSent(protocol, before, sends, outcome.Act(), input.delivered);
      sent := sends[|before|..];
    }

    /** The first `|inputs|` passes of the endless loop of `main`. The ghost
        `perPass` splits the transport log by pass: pass `i` appended
        exactly `perPass[i]`, the frame carrying its action or nothing. */
    method Run(inputs: seq<IterationInput>, classify: Classifier, recognize: Speech)
      returns (outcomes: seq<Outcome>, ghost perPass: seq<seq<Send>>)
      requires Valid() && Listening()
      requires forall i :: 0 <= i < |inputs| ==> InputFits(frameLength, inputs[i])
      modifies this, rawSamples
      ensures Valid() && Listening()
      ensures |outcomes| == |inputs|
      ensures forall i :: 0 <= i < |inputs| ==> outcomes[i] == StepOutcome(frameLength, inputs[i], classify, recognize)
      ensures recognizersCreated == old(recognizersCreated) + Wakes(outcomes)
      ensures |sends| == |old(sends)| + Actuations(outcomes)
      ensures |perPass| == |inputs| && sends == old(sends) + Flatten(perPass)
      ensures forall i :: 0 <= i < |inputs| ==> PassSent(protocol, perPass[i], outcomes[i].Act(), inputs[i].delivered)
    {
      outcomes, perPass := [], [];
      ghost var base, created0 := sends, recognizersCreated;
      for i := 0 to |inputs|
        invariant Valid() && Listening() && |outcomes| == i
        invariant RunSoFar(protocol, frameLength, inputs, classify, recognize, outcomes, perPass, base, sends,
                           created0, recognizersCreated)
      {
        ghost var log, created := sends, recognizersCreated;
        var o, sent := Iteration(inputs[i], classify, recognize);
        RunSoFarStep(protocol, frameLength, inputs, classify, recognize, outcomes, perPass, base, log,
                     created0, created, o, sent);
        outcomes := outcomes + [o];
        perPass := perPass + [sent];
      }
    }
  }

}
