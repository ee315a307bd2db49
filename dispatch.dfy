/** The listen / command-window loop of `main`.

    The collaborators are oracles: every audio read is an input (`Some`
    samples, or `None` for a failed read), the classifier is a function of the
    frame it is given, the speech recognizer is a function of all the audio it
    has been fed since it was created, the wall clock is the sequence of
    integer-second readings `time(nullptr)` returns, and the CAN transport's
    answer is a boolean. */
module Dispatch {
  import opened Wrappers
  import opened FrameFilter
  import opened CanProtocol
  import opened CommandTable
  import opened WakeWord

  /** Length of the command window, in seconds: `difftime(…) < 5.0`. */
  const WindowSeconds: int := 5

  /** The recognizer's answer to one chunk: `accept_waveform` returned 0
      (`Pending`), or it returned non-zero and the JSON result did not parse
      (`Unparsable`) or parsed with this "text" member (`Transcript`). */
  datatype Poll = Pending | Unparsable | Transcript(text: string)

  /** A live recognizer: the audio chunks it has been fed since creation. */
  datatype Recognizer = Recognizer(fed: seq<seq<Sample>>)

  type Classifier = seq<Sample> -> ClassifierResult
  type Speech = seq<seq<Sample>> -> Poll

  /** One `send_can` call: the frame handed to the transport and its answer
      (logged only, never retried). */
  datatype Send = Send(frame: CanFrame, delivered: bool)

  // ---------------------------------------------------------------------
  // The command window as a function of its inputs.

  datatype WindowEnd = Expired | Recognized(text: string)

  /** How a window ended, the sample buffer it left and what it fed the recognizer. */
  datatype WindowResult = WindowResult(end: WindowEnd, buffer: seq<Sample>, fed: seq<seq<Sample>>)

  /** Inputs of one command window: `clock[0]` is the start reading and
      `clock[k + 1]` the reading of the k-th loop test; the clock eventually
      reaches the deadline; poll `k` reads `chunks[k]`, half a frame long. */
  predicate WindowInputs(clock: seq<int>, chunks: seq<Option<seq<Sample>>>, half: nat) {
    && |clock| >= 2
    && clock[|clock| - 1] - clock[0] >= WindowSeconds
    && |chunks| >= |clock| - 1
    && forall k :: 0 <= k < |chunks| && chunks[k].Some? ==> |chunks[k].value| == half
  }

  /** `snd_pcm_readi(audio, raw_samples, SAMPLE_LENGTH / 2)`: a chunk
      overwrites the front of the buffer; a failed read leaves it as it was
      (its return value is not checked). */
  function Refill(buffer: seq<Sample>, chunk: Option<seq<Sample>>): (r: seq<Sample>)
    requires chunk.Some? ==> |chunk.value| <= |buffer|
    ensures |r| == |buffer|
    ensures chunk.None? ==> r == buffer
    ensures chunk.Some? ==> r[..|chunk.value|] == chunk.value && r[|chunk.value|..] == buffer[|chunk.value|..]
  {
    match chunk
    case None => buffer
    case Some(c) => c + buffer[|c|..]
  }

  /** The front half of the buffer after the first `n` chunk reads of a
      window that began with `buffer0`: the last chunk that was read, or the
      frame's own front half if none was. */
  function Front(buffer0: seq<Sample>, chunks: seq<Option<seq<Sample>>>, n: nat): seq<Sample>
    requires n <= |chunks|
  {
    if n == 0 then buffer0[..|buffer0| / 2]
    else if chunks[n - 1].Some? then chunks[n - 1].value
    else Front(buffer0, chunks, n - 1)
  }

  /** The loop `while (difftime(time(nullptr), inicio) < 5.0)` from poll `k`
      on, with `buffer` the current samples and `fed` what the recognizer has
      had so far. */
  function RunWindow(clock: seq<int>, chunks: seq<Option<seq<Sample>>>, recognize: Speech,
                     buffer: seq<Sample>, fed: seq<seq<Sample>>, k: nat): WindowResult
    requires WindowInputs(clock, chunks, |buffer| / 2)
    requires k + 1 < |clock|
    decreases |clock| - k
  {
    if clock[k + 1] - clock[0] >= WindowSeconds then WindowResult(Expired, buffer, fed)
    else
      var buffer' := Refill(buffer, chunks[k]);
      var fed' := fed + [buffer'[..|buffer| / 2]];
      match recognize(fed')
      case Transcript(t) => WindowResult(Recognized(t), buffer', fed')
      case _ => RunWindow(clock, chunks, recognize, buffer', fed', k + 1)
  }

  /** The audio a recognizer has been fed after `n` polls of a window that
      began with `buffer0`. */
  function Fed(buffer0: seq<Sample>, chunks: seq<Option<seq<Sample>>>, n: nat): (r: seq<seq<Sample>>)
    requires n <= |chunks|
    ensures |r| == n
  {
    if n == 0 then [] else Fed(buffer0, chunks, n - 1) + [Front(buffer0, chunks, n)]
  }

  /** The `j`-th loop test finds the window still open. */
  predicate Open(clock: seq<int>, j: nat)
    requires j + 1 < |clock|
  {
    clock[j + 1] - clock[0] < WindowSeconds
  }

  /** The `j`-th poll yields a parsed transcript. */
  predicate HeardTranscript(recognize: Speech, buffer0: seq<Sample>, chunks: seq<Option<seq<Sample>>>, j: nat)
    requires j < |chunks|
  {
    recognize(Fed(buffer0, chunks, j + 1)).Transcript?
  }

  /** The window ends at poll `n` with this text: every test up to the `n`-th
      found it open, no earlier poll yielded a transcript, and poll `n` did. */
  predicate RecognizedAt(clock: seq<int>, chunks: seq<Option<seq<Sample>>>, recognize: Speech,
                         buffer0: seq<Sample>, n: nat, text: string)
    requires |chunks| >= |clock| - 1
  {
    && n + 1 < |clock|
    && (forall j :: 0 <= j <= n ==> Open(clock, j))
    && (forall j :: 0 <= j < n ==> !HeardTranscript(recognize, buffer0, chunks, j))
    && recognize(Fed(buffer0, chunks, n + 1)) == Transcript(text)
  }

  /** The window expires at the `n`-th test: the tests before it found it
      open, none of the `n` polls yielded a transcript, and this one finds
      the deadline reached. */
  predicate ExpiredAt(clock: seq<int>, chunks: seq<Option<seq<Sample>>>, recognize: Speech,
                      buffer0: seq<Sample>, n: nat)
    requires |chunks| >= |clock| - 1
  {
    && n + 1 < |clock|
    && (forall j :: 0 <= j < n ==> Open(clock, j))
    && (forall j :: 0 <= j < n ==> !HeardTranscript(recognize, buffer0, chunks, j))
    && !Open(clock, n)
  }

  /** The two descriptions pick out at most one end of a window: a window
      cannot both expire and recognize, nor recognize at two polls. */
  lemma {:induction false} WindowEndIsUnique(clock: seq<int>, chunks: seq<Option<seq<Sample>>>, recognize: Speech,
                                             buffer0: seq<Sample>, n: nat, m: nat, text: string, text': string)
    requires |chunks| >= |clock| - 1
    ensures !(RecognizedAt(clock, chunks, recognize, buffer0, n, text) && ExpiredAt(clock, chunks, recognize, buffer0, m))
    ensures RecognizedAt(clock, chunks, recognize, buffer0, n, text) && RecognizedAt(clock, chunks, recognize, buffer0, m, text')
            ==> n == m && text == text'
  {
    // A recognized end names a poll that heard a transcript and tests that
    // found the window open; each contradicts the other description.
    if RecognizedAt(clock, chunks, recognize, buffer0, n, text) {
      assert HeardTranscript(recognize, buffer0, chunks, n);
      if m <= n { assert Open(clock, m); }
    }
    if RecognizedAt(clock, chunks, recognize, buffer0, m, text') {
      assert HeardTranscript(recognize, buffer0, chunks, m);
    }
  }

  /** The loop from poll `k` on: it polls once per test that finds the
      window open, feeding each time the front half of the buffer, and stops
      at the first poll with a parsed transcript or the first test at or past
      the deadline. The back half of the buffer is never touched. */
  lemma {:induction false} WindowFrom(clock: seq<int>, chunks: seq<Option<seq<Sample>>>, recognize: Speech,
                                      buffer0: seq<Sample>, buffer: seq<Sample>, fed: seq<seq<Sample>>, k: nat)
    requires WindowInputs(clock, chunks, |buffer0| / 2)
    requires k + 1 < |clock| && |buffer| == |buffer0|
    requires fed == Fed(buffer0, chunks, k)
    requires (forall j :: 0 <= j < k ==> Open(clock, j))
    requires (forall j :: 0 <= j < k ==> !HeardTranscript(recognize, buffer0, chunks, j))
    requires buffer[..|buffer0| / 2] == Front(buffer0, chunks, k)
    requires buffer[|buffer0| / 2..] == buffer0[|buffer0| / 2..]
    ensures var r := RunWindow(clock, chunks, recognize, buffer, fed, k);
            && |r.fed| + 1 < |clock|
            && r.fed == Fed(buffer0, chunks, |r.fed|)
            && (r.end.Recognized? ==> |r.fed| > 0 && RecognizedAt(clock, chunks, recognize, buffer0, |r.fed| - 1, r.end.text))
            && (r.end.Expired? ==> ExpiredAt(clock, chunks, recognize, buffer0, |r.fed|))
            && |r.buffer| == |buffer0|
            && r.buffer[..|buffer0| / 2] == Front(buffer0, chunks, |r.fed|)
            && r.buffer[|buffer0| / 2..] == buffer0[|buffer0| / 2..]
    decreases |clock| - k
  {
    var half := |buffer0| / 2;
    if Open(clock, k) {
      var buffer' := Refill(buffer, chunks[k]);
      var fed' := fed + [buffer'[..half]];
      assert buffer'[..half] == Front(buffer0, chunks, k + 1);
      assert buffer'[half..] == buffer0[half..];
      assert fed' == Fed(buffer0, chunks, k + 1);
      if !recognize(fed').Transcript? {
        WindowFrom(clock, chunks, recognize, buffer0, buffer', fed', k + 1);
      }
    }
  }

  /** A whole window, from its first test, ends exactly as described by
      RecognizedAt or ExpiredAt. */
  lemma WindowEnds(clock: seq<int>, chunks: seq<Option<seq<Sample>>>, recognize: Speech, buffer0: seq<Sample>)
    requires WindowInputs(clock, chunks, |buffer0| / 2)
    ensures var r := RunWindow(clock, chunks, recognize, buffer0, [], 0);
            && (r.end.Recognized? ==> |r.fed| > 0 && RecognizedAt(clock, chunks, recognize, buffer0, |r.fed| - 1, r.end.text))
            && (r.end.Expired? ==> ExpiredAt(clock, chunks, recognize, buffer0, |r.fed|))
            && |r.buffer| == |buffer0| && r.buffer[|buffer0| / 2..] == buffer0[|buffer0| / 2..]
  {
    WindowFrom(clock, chunks, recognize, buffer0, buffer0, [], 0);
  }

  // ---------------------------------------------------------------------
  // One iteration of the outer loop as a function of its inputs.

  /** Everything one pass of `while (true)` reads from its collaborators. */
  datatype IterationInput = IterationInput(
    frame: Option<seq<Sample>>,              // snd_pcm_readi in main
    wakeFrame: Option<seq<Sample>>,          // snd_pcm_readi in get_audio_frame_signal
    clock: seq<int>,                         // time(nullptr) readings of the window
    chunks: seq<Option<seq<Sample>>>,        // snd_pcm_readi of each half-frame chunk
    delivered: bool)                         // answer of send_can, if it is called

  predicate InputFits(frameLength: nat, input: IterationInput) {
    && (input.frame.Some? ==> |input.frame.value| == frameLength)
    && (input.wakeFrame.Some? ==> |input.wakeFrame.value| == frameLength)
    && WindowInputs(input.clock, input.chunks, frameLength / 2)
  }

  /** How one pass of the outer loop ended. */
  datatype Outcome =
    | ReadFailed                              // `continue` after a failed read
    | ConstantFrame                           // `continue` after a constant frame
    | NoWake                                  // wake word not detected
    | TimedOut                                // window expired, nothing sent
    | Dispatched(text: string, action: Action) // a transcript was routed
  {
    /** A recognizer was created (and freed) in this pass. */
    predicate Woke() { TimedOut? || Dispatched? }

    /** The actuator operation this pass performed, if any. */
    function Act(): Action {
      if Dispatched? then action else NoAction
    }
  }

  /** `wake_word_detected`: a second, fresh frame is captured and classified. */
  predicate WakeFromCapture(wakeFrame: Option<seq<Sample>>, classify: Classifier) {
    wakeFrame.Some? && WakeWordDetected(classify(wakeFrame.value))
  }

  /** The outcome of one pass of the outer loop. */
  function StepOutcome(frameLength: nat, input: IterationInput, classify: Classifier, recognize: Speech): Outcome
    requires frameLength >= 1 && InputFits(frameLength, input)
  {
    match input.frame
    case None => ReadFailed
    case Some(f) =>
      if IsConstant(f) then ConstantFrame
      else if !WakeFromCapture(input.wakeFrame, classify) then NoWake
      else
        match RunWindow(input.clock, input.chunks, recognize, f, [], 0).end
        case Expired => TimedOut
        case Recognized(t) => Dispatched(t, Route(t))
  }

  /** The three ways a pass ends before the recognizer exists, and the two
      after: a skipped frame never reaches wake detection, a pass that did
      not wake never opens a window, and a pass that woke either timed out
      with nothing sent or dispatched the first transcript the recognizer
      finalized within the window, empty text included. */
  lemma {:induction false} StepOutcomeCases(frameLength: nat, input: IterationInput, classify: Classifier, recognize: Speech)
    requires frameLength >= 1 && InputFits(frameLength, input)
    ensures var o := StepOutcome(frameLength, input, classify, recognize);
            && (o == ReadFailed <==> input.frame.None?)
            && (o == ConstantFrame <==> input.frame.Some? && IsConstant(input.frame.value))
            && (o.Woke() <==> input.frame.Some? && !IsConstant(input.frame.value) && WakeFromCapture(input.wakeFrame, classify))
            && (o.TimedOut? ==> exists n :: ExpiredAt(input.clock, input.chunks, recognize, input.frame.value, n))
            && (o.Dispatched? ==>
                  && o.action == Route(o.text)
                  && exists n :: RecognizedAt(input.clock, input.chunks, recognize, input.frame.value, n, o.text))
            && (o.Act() != NoAction ==> o.Dispatched?)
  {
    if input.frame.Some? && !IsConstant(input.frame.value) && WakeFromCapture(input.wakeFrame, classify) {
      WindowEnds(input.clock, input.chunks, recognize, input.frame.value);
    }
  }

  /** A classifier that reports the wake word at 0.95, and a recognizer that
      finalizes "virar a direita" on the third chunk or one that never
      finalizes anything. */
  const HearsZenira: Classifier := f => Classified([Classification("noise", 0.05), Classification("Zenira", 0.95)])
  const TurnsRightOnThirdChunk: Speech := h => if |h| >= 3 then Transcript("virar a direita") else Pending
  const NeverFinal: Speech := h => Pending
  const SaysNothing: Speech := h => Transcript("")

  /** A two-sample frame that is not constant, and a clock that reaches the
      deadline on its fourth test. */
  const Scene: IterationInput := IterationInput(Some([0, 1]), Some([3, 4]), [100, 100, 101, 103, 105],
                                                [Some([7]), None, Some([9]), None], true)

  /** The frame of Scene is not constant and its wake frame is classified as the wake word. */
  lemma SceneWakes()
    ensures !IsConstant(Scene.frame.value)
    ensures WakeFromCapture(Scene.wakeFrame, HearsZenira)
  {
    var f := Scene.frame.value;
    assert f[1] != f[0];
    assert HearsZenira(Scene.wakeFrame.value).entries[1] == Classification("Zenira", 0.95);
  }

  /** Wake word at 0.95, then "virar a direita" on the third chunk: the tail
      is turned to +30.00 degrees. */
  lemma TurnRightScenario()
    ensures StepOutcome(2, Scene, HearsZenira, TurnsRightOnThirdChunk) == Dispatched("virar a direita", SetTail(3000))
  {
    SceneWakes();
    var c, ch, R := Scene.clock, Scene.chunks, TurnsRightOnThirdChunk;
    var b0, b1, b2: seq<Sample> := [0, 1], [7, 1], [9, 1];
    var h1: seq<seq<Sample>> := [[7]];
    var h2 := h1 + [[7]];
    var h3 := h2 + [[9]];
    assert Refill(b0, ch[0]) == b1 && Refill(b1, ch[1]) == b1 && Refill(b1, ch[2]) == b2;
    assert RunWindow(c, ch, R, b1, h2, 2) == WindowResult(Recognized("virar a direita"), b2, h3);
    assert RunWindow(c, ch, R, b1, h1, 1) == RunWindow(c, ch, R, b1, h2, 2);
    assert RunWindow(c, ch, R, b0, [], 0) == RunWindow(c, ch, R, b1, h1, 1);
  }

  /** Wake word, then a recognizer that never finalizes: the window times
      out on the fourth test (105 - 100 >= 5) and nothing is sent. */
  lemma TimeoutScenario()
    ensures StepOutcome(2, Scene, HearsZenira, NeverFinal) == TimedOut
  {
    SceneWakes();
    var c, ch, R := Scene.clock, Scene.chunks, NeverFinal;
    var b0, b1, b2: seq<Sample> := [0, 1], [7, 1], [9, 1];
    var h1: seq<seq<Sample>> := [[7]];
    var h2 := h1 + [[7]];
    var h3 := h2 + [[9]];
    assert Refill(b0, ch[0]) == b1 && Refill(b1, ch[1]) == b1 && Refill(b1, ch[2]) == b2;
    assert RunWindow(c, ch, R, b2, h3, 3) == WindowResult(Expired, b2, h3);
    assert RunWindow(c, ch, R, b1, h2, 2) == RunWindow(c, ch, R, b2, h3, 3);
    assert RunWindow(c, ch, R, b1, h1, 1) == RunWindow(c, ch, R, b1, h2, 2);
    assert RunWindow(c, ch, R, b0, [], 0) == RunWindow(c, ch, R, b1, h1, 1);
  }

  /** Wake word, then a recognizer that finalizes empty text on the first
      chunk: the window ends there, and nothing is sent. */
  lemma EmptyTranscriptScenario()
    ensures StepOutcome(2, Scene, HearsZenira, SaysNothing) == Dispatched("", NoAction)
  {
    SceneWakes();
    var c, ch, R := Scene.clock, Scene.chunks, SaysNothing;
    var b0, b1: seq<Sample> := [0, 1], [7, 1];
    assert Refill(b0, ch[0]) == b1;
    assert RunWindow(c, ch, R, b0, [], 0) == WindowResult(Recognized(""), b1, [[7]]);
  }

}
