/** The command routing chain: an exact, case-sensitive comparison of the
    recognizer's finalized transcript against the known phrases, each mapped
    to one actuator operation. */
module CommandTable {
  import opened CanProtocol

  /** The operation a transcript asks for. */
  datatype Action =
    | SetMotor(duty: Byte)              // `send_command_motor(can_sock, duty)`
    | SetTail(centiDegrees: Int16)      // `send_command_tail(can_sock, position)`
    | NoAction                          // nothing is sent

  /** The phrases the recognizer is constrained to (`criarCommandRecognizer`). */
  const Grammar: seq<string> := [
    "desligar motor", "ligar motor",
    "mudar velocidade para dez",
    "mudar velocidade para vinte",
    "mudar velocidade para trinta",
    "mudar velocidade para quarenta",
    "mudar velocidade para cinquenta",
    "mudar velocidade para sessenta",
    "mudar velocidade para setenta",
    "mudar velocidade para oitenta",
    "mudar velocidade para noventa",
    "mudar velocidade para cem",
    "virar a direita",
    "virar a esquerda",
    "seguir reto"
  ]

  /** The routing chain written as one table, entry by entry in the order
      the chain tests them: the reference definition the chain of
      comparisons is proved against. */
  const Table: seq<(string, Action)> := [
    ("desligar motor", SetMotor(0)),
    ("ligar motor", SetMotor(5)),
    ("mudar velocidade para 10", SetMotor(10)),
    ("mudar velocidade para dez", SetMotor(10)),
    ("mudar velocidade para 20", SetMotor(20)),
    ("mudar velocidade para vinte", SetMotor(20)),
    ("mudar velocidade para 30", SetMotor(30)),
    ("mudar velocidade para trinta", SetMotor(30)),
    ("mudar velocidade para 40", SetMotor(40)),
    ("mudar velocidade para quarenta", SetMotor(40)),
    ("mudar velocidade para 50", SetMotor(50)),
    ("mudar velocidade para cinquenta", SetMotor(50)),
    ("mudar velocidade para 60", SetMotor(60)),
    ("mudar velocidade para sessenta", SetMotor(60)),
    ("mudar velocidade para 70", SetMotor(70)),
    ("mudar velocidade para setenta", SetMotor(70)),
    ("mudar velocidade para 80", SetMotor(80)),
    ("mudar velocidade para oitenta", SetMotor(80)),
    ("mudar velocidade para 90", SetMotor(90)),
    ("mudar velocidade para noventa", SetMotor(90)),
    ("mudar velocidade para 100", SetMotor(100)),
    ("mudar velocidade para cem", SetMotor(100)),
    ("virar a direita", SetTail(3000)),
    ("virar a esquerda", SetTail(-3000)),
    ("seguir reto", SetTail(0))
  ]

  /** The `if … else if …` chain of `main`, in the source's order. Any other
      transcript, the empty one included, sends nothing. */
  function Route(comando: string): Action
  {
    if comando == "desligar motor" then SetMotor(0)
    else if comando == "ligar motor" then SetMotor(5)
    else if comando == "mudar velocidade para 10" || comando == "mudar velocidade para dez" then SetMotor(10)
    else if comando == "mudar velocidade para 20" || comando == "mudar velocidade para vinte" then SetMotor(20)
    else if comando == "mudar velocidade para 30" || comando == "mudar velocidade para trinta" then SetMotor(30)
    else if comando == "mudar velocidade para 40" || comando == "mudar velocidade para quarenta" then SetMotor(40)
    else if comando == "mudar velocidade para 50" || comando == "mudar velocidade para cinquenta" then SetMotor(50)
    else if comando == "mudar velocidade para 60" || comando == "mudar velocidade para sessenta" then SetMotor(60)
    else if comando == "mudar velocidade para 70" || comando == "mudar velocidade para setenta" then SetMotor(70)
    else if comando == "mudar velocidade para 80" || comando == "mudar velocidade para oitenta" then SetMotor(80)
    else if comando == "mudar velocidade para 90" || comando == "mudar velocidade para noventa" then SetMotor(90)
    else if comando == "mudar velocidade para 100" || comando == "mudar velocidade para cem" then SetMotor(100)
    else if comando == "virar a direita" then SetTail(3000)
    else if comando == "virar a esquerda" then SetTail(-3000)
    else if comando == "seguir reto" then SetTail(0)
    else NoAction
  }

  /** The chain agrees with the table on every phrase of the table. */
  lemma RouteMatchesTable()
    ensures forall i :: 0 <= i < |Table| ==> Route(Table[i].0) == Table[i].1
  {
    RouteMatchesEntriesMotorSwitch();
    RouteMatchesEntriesLowSpeeds();
    RouteMatchesEntriesMidSpeeds();
    RouteMatchesEntriesHighSpeeds();
    RouteMatchesEntriesTopSpeeds();
    RouteMatchesEntriesTail();
  }

  // The table in six groups of consecutive entries, a group per lemma.

  lemma RouteMatchesEntriesMotorSwitch()
    ensures forall i :: 0 <= i < 2 ==> Route(Table[i].0) == Table[i].1
  {
  }

  lemma RouteMatchesEntriesLowSpeeds()
    ensures forall i :: 2 <= i < 7 ==> Route(Table[i].0) == Table[i].1
  {
  }

  lemma RouteMatchesEntriesMidSpeeds()
    ensures forall i :: 7 <= i < 12 ==> Route(Table[i].0) == Table[i].1
  {
  }

  lemma RouteMatchesEntriesHighSpeeds()
    ensures forall i :: 12 <= i < 17 ==> Route(Table[i].0) == Table[i].1
  {
  }

  lemma RouteMatchesEntriesTopSpeeds()
    ensures forall i :: 17 <= i < 22 ==> Route(Table[i].0) == Table[i].1
  {
  }

  lemma RouteMatchesEntriesTail()
    ensures forall i :: 22 <= i < 25 ==> Route(Table[i].0) == Table[i].1
  {
  }

  /** The chain sends nothing for a transcript that is not a phrase of the table. */
  lemma RouteOutsideTable(comando: string)
    requires forall i :: 0 <= i < |Table| ==> Table[i].0 != comando
    ensures Route(comando) == NoAction
  {
    // The chain compares against the table's phrases one by one.
    assert Table[0].0 != comando && Table[1].0 != comando && Table[2].0 != comando && Table[3].0 != comando && Table[4].0 != comando;
    assert Table[5].0 != comando && Table[6].0 != comando && Table[7].0 != comando && Table[8].0 != comando && Table[9].0 != comando;
    assert Table[10].0 != comando && Table[11].0 != comando && Table[12].0 != comando && Table[13].0 != comando && Table[14].0 != comando;
    assert Table[15].0 != comando && Table[16].0 != comando && Table[17].0 != comando && Table[18].0 != comando && Table[19].0 != comando;
    assert Table[20].0 != comando && Table[21].0 != comando && Table[22].0 != comando && Table[23].0 != comando && Table[24].0 != comando;
  }

  /** No phrase appears twice in the table, so the lookup is deterministic. */
  lemma TablePhrasesDistinct()
    ensures forall i, j :: 0 <= i < j < |Table| ==> Table[i].0 != Table[j].0
  {
  }

  /** An operation whose arguments lie in the documented ranges: duty in
      0..100, tail position in -4500..4500. */
  predicate InRange(a: Action) {
    match a
    case SetMotor(d) => d <= 100
    case SetTail(p) => -TailLimit <= p <= TailLimit
    case NoAction => true
  }

  /** A transcript drives an actuator exactly when it is a phrase of the
      table, and what it drives lies in the documented ranges. */
  lemma {:induction false} RouteActs(comando: string)
    ensures Route(comando) != NoAction <==> exists i :: 0 <= i < |Table| && Table[i].0 == comando
    ensures InRange(Route(comando))
  {
    RouteMatchesTable();
    assert forall i :: 0 <= i < |Table| ==> Table[i].1 != NoAction && InRange(Table[i].1);
    if forall i :: 0 <= i < |Table| ==> Table[i].0 != comando {
      RouteOutsideTable(comando);
    }
  }

  /** Every phrase of the recognizer's grammar is a phrase of the table, so
      each one the recognizer can finalize drives an actuator. */
  lemma GrammarIsRouted()
    ensures forall g :: 0 <= g < |Grammar| ==> exists i :: 0 <= i < |Table| && Table[i].0 == Grammar[g] && Table[i].1 != NoAction
  {
    forall g | 0 <= g < |Grammar|
      ensures exists i :: 0 <= i < |Table| && Table[i].0 == Grammar[g] && Table[i].1 != NoAction
    {
      // The grammar lists the two motor phrases, the spoken speeds and the
      // three tail phrases; the table interleaves the written speeds.
      var k := if g < 2 then g else if g < 12 then 2 * g - 1 else g + 10;
      assert Table[k].0 == Grammar[g] && Table[k].1 != NoAction;
    }
    assert forall g :: 0 <= g < |Grammar| ==> exists i :: 0 <= i < |Table| && Table[i].0 == Grammar[g] && Table[i].1 != NoAction;
  }

  /** The ten speed commands: spoken phrase, written phrase, duty cycle. */
  const Speeds: seq<(string, string, Byte)> := [
    ("mudar velocidade para dez", "mudar velocidade para 10", 10),
    ("mudar velocidade para vinte", "mudar velocidade para 20", 20),
    ("mudar velocidade para trinta", "mudar velocidade para 30", 30),
    ("mudar velocidade para quarenta", "mudar velocidade para 40", 40),
    ("mudar velocidade para cinquenta", "mudar velocidade para 50", 50),
    ("mudar velocidade para sessenta", "mudar velocidade para 60", 60),
    ("mudar velocidade para setenta", "mudar velocidade para 70", 70),
    ("mudar velocidade para oitenta", "mudar velocidade para 80", 80),
    ("mudar velocidade para noventa", "mudar velocidade para 90", 90),
    ("mudar velocidade para cem", "mudar velocidade para 100", 100)
  ]

  /** For each of the ten speeds, the spoken and the written form select the
      same duty cycle. */
  lemma SpeedWordsAndDigitsAgree()
    ensures forall s :: 0 <= s < |Speeds| ==> Route(Speeds[s].0) == Route(Speeds[s].1) == SetMotor(Speeds[s].2)
  {
    RouteMatchesTable();
    SpeedsAgreeBetween(0, 5);
    SpeedsAgreeBetween(5, 10);
  }

  /** The speeds `lo` to `hi - 1`, read off the table: it lists each speed as
      its written form followed by its spoken form. */
  lemma SpeedsAgreeBetween(lo: nat, hi: nat)
    requires lo <= hi <= |Speeds|
    requires forall i :: 0 <= i < |Table| ==> Route(Table[i].0) == Table[i].1
    ensures forall s :: lo <= s < hi ==> Route(Speeds[s].0) == Route(Speeds[s].1) == SetMotor(Speeds[s].2)
  {
    forall s | lo <= s < hi
      ensures Route(Speeds[s].0) == Route(Speeds[s].1) == SetMotor(Speeds[s].2)
    {
      assert Table[2 * s + 2] == (Speeds[s].1, SetMotor(Speeds[s].2));
      assert Table[2 * s + 3] == (Speeds[s].0, SetMotor(Speeds[s].2));
    }
  }

  /** Matching is exact: a different case or a trailing space selects nothing. */
  lemma ExactMatchExamples()
    ensures Route("Ligar motor") == NoAction && Route("ligar motor ") == NoAction
  {
  }

  /** The empty transcript of a parsed but silent result selects nothing. */
  lemma EmptyTranscriptRoutesNowhere()
    ensures Route("") == NoAction
  {
  }

}
