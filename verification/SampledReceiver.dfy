/** Lab 5.2's receiver: a task samples the light sensor and decodes from the levels it sees. */
module SampledReceiver {
  import opened Options
  import opened Folds
  import opened MorseCode
  import opened Decoding

  const DOT_MIN: int := 50
  const DASH_MIN: int := 250
  const LETTER_GAP_MIN: int := 250
  const WORD_GAP_MIN: int := 600
  const TIMEOUT: int := 1000
  const LIGHT_THRESHOLD: int := 22

  /** Microseconds since boot, and the sensor reading in millivolts. */
  datatype Sample = Sample(time: int, reading: int) {
    predicate Bright() {
      reading > LIGHT_THRESHOLD
    }

    function Ms(): int {
      time / 1000
    }
  }

  function Classify(pulse: int): Option<char> {
    if pulse >= DASH_MIN then Some('-') else if pulse >= DOT_MIN then Some('.') else None
  }

  function GapBreak(gap: int): Break {
    if gap > WORD_GAP_MIN then Cut(" ") else if gap > LETTER_GAP_MIN then Cut("") else Keep
  }

  function SampleRules(): Rules {
    Rules(pulse => Classify(Int32(pulse)), gap => GapBreak(Int32(gap)))
  }

  /** Pulses from 50 ms on are dots, from 250 on dashes; silences of up to 250 ms belong to a letter, of up to 600 end
      it, and longer ones a word; 23 millivolts are light. */
  lemma ThresholdLaw(length: int, sample: Sample)
    requires 0 <= length <= INT_MAX
    ensures SampleRules().sym(length) == if length < 50 then None else if length < 250 then Some('.') else Some('-')
    ensures SampleRules().brk(length) == if length <= 250 then Keep else if length <= 600 then Cut("") else Cut(" ")
    ensures sample.Bright() <==> sample.reading >= 23
  {
  }

  // ----- One pass of the loop; time 0 means "not yet" -----

  datatype Task = Task(core: Core, lightOn: bool, lightStart: int, gapStart: int, lastActivity: int)

  const IDLE := Task(Core("", ""), false, 0, 0, 0)

  ghost function CheckTimeout(s: Task, now: int): Task {
    if s.core.buf != "" && s.lastActivity > 0 && now - s.lastActivity > TIMEOUT then
      s.(core := Flush(s.core, "\n"), lastActivity := 0)
    else s
  }

  ghost function CheckLight(s: Task, now: int, bright: bool): Task {
    if bright && !s.lightOn then
      Task(if s.gapStart > 0 then Rise(SampleRules(), s.core, now - s.gapStart) else s.core, true, now, s.gapStart, now)
    else if !bright && s.lightOn then
      Task(Fall(SampleRules(), s.core, now - s.lightStart), false, s.lightStart, now, now)
    else s
  }

  ghost function Pass(s: Task, sample: Sample): Task {
    CheckLight(CheckTimeout(s, sample.Ms()), sample.Ms(), sample.Bright())
  }

  class Receiver {
    const morseBuffer: array<char>
    var morseIdx: nat
    var lightOn: bool
    var lightStartTime: int
    var gapStartTime: int
    var lastActivityTime: int
    var printed: string

    ghost predicate Valid()
      reads this
    {
      morseBuffer.Length == 10 && morseIdx <= 9
    }

    ghost function Current(): Task
      requires Valid()
      reads this, morseBuffer
    {
      Task(Core(printed, morseBuffer[..morseIdx]), lightOn, lightStartTime, gapStartTime, lastActivityTime)
    }

    constructor ()
      ensures Valid() && fresh(morseBuffer) && Current() == IDLE
    {
      morseBuffer := new char[10];
      morseIdx, lightOn, printed := 0, false, "";
      lightStartTime, gapStartTime, lastActivityTime := 0, 0, 0;
    }

    method Print(sep: string)
      requires Valid()
      modifies `morseIdx, `printed
      ensures Valid() && morseIdx == 0
      ensures printed == old(printed) + [Lookup(old(morseBuffer[..morseIdx]))] + sep
    {
      var decoded := DecodeMorse(morseBuffer[..morseIdx]);
      printed := printed + [decoded] + sep;
      morseIdx := 0;
    }

    method Append(symbol: char)
      requires Valid()
      modifies `morseIdx, morseBuffer
      ensures Valid()
      ensures var buf := old(morseBuffer[..morseIdx]);
        morseBuffer[..morseIdx] == if |buf| < CAPACITY then buf + [symbol] else buf
    {
      if morseIdx < morseBuffer.Length - 1 {
        morseBuffer[morseIdx] := symbol;
        morseIdx := morseIdx + 1;
      }
    }

    method OnTimeout(now: int)
      requires Valid()
      modifies `morseIdx, `printed, `lastActivityTime
      ensures Valid() && Current() == CheckTimeout(old(Current()), now)
    {
      if morseIdx > 0 && lastActivityTime > 0 {
        var idle := now - lastActivityTime;
        if idle > TIMEOUT {
          Print("\n");
          lastActivityTime := 0;
        }
      }
    }

    method OnSample(sample: Sample)
      requires Valid()
      modifies this, morseBuffer
      ensures Valid() && Current() == Pass(old(Current()), sample)
    {
      var now := sample.time / 1000;
      OnTimeout(now);
      if sample.reading > LIGHT_THRESHOLD && !lightOn {
        lightOn := true;
        lightStartTime := now;
        lastActivityTime := now;
        if gapStartTime > 0 {
          var gap := Int32(now - gapStartTime);
          if gap > WORD_GAP_MIN && morseIdx > 0 {
            Print(" ");
          } else if gap > LETTER_GAP_MIN && morseIdx > 0 {
            Print("");
          }
        }
      } else if sample.reading <= LIGHT_THRESHOLD && lightOn {
        lightOn := false;
        gapStartTime := now;
        lastActivityTime := now;
        var pulse := Int32(now - lightStartTime);
        if pulse >= DASH_MIN {
          Append('-');
        } else if pulse >= DOT_MIN {
          Append('.');
        }
      }
    }

    /** The task's loop over a finite run of samples. */
    method Receive(samples: seq<Sample>)
      requires Valid()
      modifies this, morseBuffer
      ensures Valid() && Current() == Fold(Pass, old(Current()), samples)
    {
      ghost var start := Current();
      assert samples[..0] == [];
      for i := 0 to |samples|
        invariant Valid() && Current() == Fold(Pass, start, samples[..i])
      {
        FoldNext(Pass, start, samples, i);
        OnSample(samples[i]);
      }
      assert samples[..|samples|] == samples;
    }
  }
}
