/** How slowly the slow link may sample. */
module SampleRate {
  import opened Folds
  import opened MorseCode
  import opened Waveform
  import opened Decoding
  import opened MorseText
  import opened SampledReceiver
  import opened SampledLink
  import opened SampleLaw

  // The longest pause that is too long.
  const TOO_LONG: int := 49002

  // Just before a whole millisecond.
  const START: int := 1000999

  /** The message "EE": two dots, three units apart. */
  const TWICE: seq<Token> := [Letter('E')] + [Letter('E')]

  const DOTS: seq<Mark> := [Mark(100, 300)] + [Mark(100, 300)]

  lemma TwiceTokens()
    ensures TokensOf("EE") == TWICE
  {
    var e := ['E'];
    FlatSnoc(TokenOf, "", 'E');
    FlatSnoc(TokenOf, e, 'E');
    assert "" + e == e && e + e == "EE";
    assert [] + [Letter('E')] == [Letter('E')];
  }

  lemma TwiceMarks()
    ensures IdealMarks(TWICE, 100) == DOTS
  {
    OneMark(100);
    FoldSnoc(Putter(100), [], [], Letter('E'));
    assert [] + [Letter('E')] == [Letter('E')];
    FoldSnoc(Putter(100), [], [Letter('E')], Letter('E'));
  }

  lemma TwiceText()
    ensures Read(TWICE, Lines()).text == "EE" && Clear(TWICE)
  {
    var one := [Letter('E')];
    assert [] + one == one;
    ReadOne([], Letter('E'), Lines());
    ReadOne(one, Letter('E'), Lines());
    ClearNext([], Letter('E'));
    ClearNext(one, Letter('E'));
    assert "E" + "" + ['E'] == "EE";
  }

  lemma DotEdges()
    ensures RiseAt(DOTS, START, 0) == START && FallAt(DOTS, START, 0) == START + 100000
    ensures RiseAt(DOTS, START, 1) == START + 400000 && FallAt(DOTS, START, 1) == START + 500000
  {
    assert DOTS[..0] == [] && DOTS[..1] == [Mark(100, 300)] && DOTS[..1][..0] == [];
  }

  // ----- A sample every 25 milliseconds, but just before each fall, and then as late as can be -----

  function SlowTime(k: nat): int {
    START + 25000 * (k - 1) + if k == 5 || k == 21 then -1 else if k == 6 || k == 22 then 24001 else 0
  }

  ghost function SlowSamples(n: nat): (samples: seq<Sample>)
    ensures |samples| == n && forall k :: 0 <= k < n ==> samples[k] == SampleAt(DOTS, START, SlowTime(k))
  {
    seq(n, k requires 0 <= k => SampleAt(DOTS, START, SlowTime(k)))
  }

  lemma SlowComplies(n: nat, step: int)
    requires TOO_LONG <= step && n >= 100 + step / 25000
    ensures Complies(DOTS, START, SlowSamples(n), step)
  {
    DotEdges();
  }

  lemma SlowPrompt(k: nat)
    requires k > 0
    ensures Prompt(DOTS, START, SlowTime(k - 1), SlowTime(k), 0, 49001)
  {
    DotEdges();
  }

  lemma SlowLags(n: nat)
    ensures Lags(DOTS, START, SlowSamples(n), 0, 49001)
  {
    forall k | 0 < k < n ensures Prompt(DOTS, START, SlowTime(k - 1), SlowTime(k), 0, 49001) { SlowPrompt(k); }
  }

  lemma RunTogether()
    ensures Flush(Run(Moved(LineRules(), 50), DOTS), "\n") == Core("I\n", "")
  {
    var r, m := Moved(LineRules(), 50), Mark(100, 300);
    assert [] + [m] == [m];
    assert Run(r, [m]) == Core("", "" + ['.']);
    assert r.brk(300) == Keep;
    assert Run(r, DOTS) == Core("", "" + ['.'] + ['.']);
    assert "" + ['.'] + ['.'] == ".." == TABLE[8];
    LookupEntry(8);
  }

  lemma SlowText(n: nat)
    requires n >= 102
    ensures Fold(Pass, IDLE, SlowSamples(n)).core == Flush(Run(Moved(LineRules(), 50), DOTS), "\n")
  {
    SlowComplies(n, TOO_LONG);
    SlowLags(n);
    assert Gain(START, 0, 49001) == 50;
    LagRun(DOTS, START, SlowSamples(n), TOO_LONG, 0, 49001);
  }

  /** With 49002 microseconds between samples, "EE" can be printed as an I. */
  lemma TooSlow(step: int, n: nat)
    requires TOO_LONG <= step && n >= 102 + step / 25000
    ensures TokensOf("EE") == TWICE && IdealMarks(TWICE, 100) == DOTS
    ensures Complies(DOTS, START, SlowSamples(n), step) && Fold(Pass, IDLE, SlowSamples(n)).core == Core("I\n", "")
  {
    TwiceTokens();
    TwiceMarks();
    SlowComplies(n, step);
    SlowText(n);
    RunTogether();
  }

  /** Every stream clear of the thresholds is always printed if and only if the samples are at most 49001
      microseconds apart. */
  lemma StepLaw(step: int)
    requires step > 0
    ensures (forall ts | Clear(ts) :: AlwaysPrinted(ts, step)) <==> step <= MAX_STEP
  {
    if step <= MAX_STEP {
      forall ts, start: int, samples: seq<Sample> | Clear(ts) && Complies(IdealMarks(ts, 100), start, samples, step)
        ensures Fold(Pass, IDLE, samples).core == Ended(Read(ts, Lines()).text)
      {
        SampledText(ts, start, samples, step);
      }
    } else {
      TooSlow(step, 102 + step / 25000);
      TwiceText();
      assert Ended("EE").out[0] != Core("I\n", "").out[0];
      assert !AlwaysPrinted(TWICE, step);
    }
  }
}
