/** Wake-word detection: the scan of the classifier's result for the label
    "Zenira" with a confidence above the threshold. */
module WakeWord {

  /** One (label, confidence) entry (`label` is a reserved word, hence `name`) of the classifier's result. */
  datatype Classification = Classification(name: string, value: real)

  /** What `run_classifier` returns: its entries, or an error code. */
  datatype ClassifierResult =
    | Classified(entries: seq<Classification>)
    | ClassifierError(code: int)

  const WakeLabel: string := "Zenira"

  /** The single-precision literal `0.8f`, exactly: 13421773 / 2^24. */
  const WakeThreshold: real := 13421773.0 / 16777216.0

  /** `label == "Zenira" && value > 0.8f`. */
  predicate IsWake(c: Classification) {
    c.name == WakeLabel && c.value > WakeThreshold
  }

  /** The loop over the classification entries, returning at the first hit. */
  function ScanForWake(entries: seq<Classification>): (found: bool)
    ensures found <==> exists i :: 0 <= i < |entries| && IsWake(entries[i])
  {
    if entries == [] then false
    else if IsWake(entries[0]) then true
    else
      var found := ScanForWake(entries[1..]);
      assert forall i :: 1 <= i < |entries| ==> entries[i] == entries[1..][i - 1];
      found
  }

  /** The decision of `wake_word_detected` once its frame has been captured:
      a classifier error is "not detected". */
  function WakeWordDetected(result: ClassifierResult): (detected: bool)
    ensures detected <==> result.Classified? && exists i :: 0 <= i < |result.entries| && IsWake(result.entries[i])
  {
    match result
    case ClassifierError(_) => false
    case Classified(entries) => ScanForWake(entries)
  }

  /** The threshold is strict and the label comparison is case-sensitive. */
  lemma ThresholdExamples()
    ensures !WakeWordDetected(Classified([Classification("Zenira", 0.8)]))
    ensures WakeWordDetected(Classified([Classification("noise", 0.1), Classification("Zenira", 0.81)]))
    ensures !WakeWordDetected(Classified([Classification("zenira", 0.95)]))
    ensures !WakeWordDetected(ClassifierError(1))
  {
  }

}
