/** The quota tracker of the interior-mutability chapter: `LimitTracker`
    records a value and reports, through a messenger, how close it is to a
    maximum; `MockMessenger` is the test double that keeps what it was sent. */
module RefCell {
  import opened RustStd

  const OverQuota := "Error: You are over your quota!"
  const Urgent90 := "Urgent warning: You've used up over 90% of your quota!"
  const Warning75 := "Warning: You've used up over 75% of your quota!"

  /** `value as f64 / max as f64 >= bound`, as IEEE arithmetic decides it on
      integers small enough to convert exactly: for `max == 0` the quotient is
      NaN (every comparison false) when `value == 0`, and infinity otherwise. */
  predicate RatioAtLeast(value: nat, max: nat, bound: real)
    requires 0.0 < bound
  {
    if max == 0 then value > 0
    else value as real / max as real >= bound
  }

  /** The messages one `set_value(value)` sends: the first threshold out of
      100%, 90% and 75% that the ratio reaches, decided by integer
      cross-multiplication. */
  function Warning(value: nat, max: nat): (msgs: seq<string>)
    ensures |msgs| <= 1
    ensures msgs == [OverQuota] <==> RatioAtLeast(value, max, 1.0)
    ensures msgs == [Urgent90] <==> !RatioAtLeast(value, max, 1.0) && RatioAtLeast(value, max, 0.9)
    ensures msgs == [Warning75] <==> !RatioAtLeast(value, max, 0.9) && RatioAtLeast(value, max, 0.75)
    ensures msgs == [] <==> !RatioAtLeast(value, max, 0.75)
  {
    RatioCrossMultiplied(value, max);
    if max == 0 then (if value > 0 then [OverQuota] else [])
    else if value >= max then [OverQuota]
    else if 10 * value >= 9 * max then [Urgent90]
    else if 4 * value >= 3 * max then [Warning75]
    else []
  }

  /** The three thresholds in integers. */
  lemma RatioCrossMultiplied(value: nat, max: nat)
    ensures max > 0 ==> (RatioAtLeast(value, max, 1.0) <==> value >= max)
    ensures max > 0 ==> (RatioAtLeast(value, max, 0.9) <==> 10 * value >= 9 * max)
    ensures max > 0 ==> (RatioAtLeast(value, max, 0.75) <==> 4 * value >= 3 * max)
  {
    if max > 0 {
      Threshold(value, max, 1, 1);
      Threshold(value, max, 9, 10);
      Threshold(value, max, 3, 4);
    }
  }

  /** `value / max >= num / den` exactly when `den * value >= num * max`. */
  lemma Threshold(value: nat, max: nat, num: nat, den: nat)
    requires max > 0 && num > 0 && den > 0
    ensures RatioAtLeast(value, max, num as real / den as real) <==> den * value >= num * max
  {
    var q, m, b := value as real / max as real, max as real, num as real / den as real;
    assert q * m == value as real;
    ScaleCompare(q, m, b);
    assert b * m * den as real == (num * max) as real;
    ScaleCompare(value as real, den as real, b * m);
  }

  /** Multiplying both sides by a positive number keeps a comparison. */
  lemma ScaleCompare(q: real, m: real, b: real)
    requires m > 0.0
    ensures q >= b <==> q * m >= b * m
  {
    if q >= b {
      assert (q - b) * m >= 0.0;
    } else {
      assert (b - q) * m > 0.0;
    }
  }

  /** The thresholds are nested: reaching a higher one means reaching the lower ones. */
  lemma RatioNested(value: nat, max: nat)
    ensures RatioAtLeast(value, max, 1.0) ==> RatioAtLeast(value, max, 0.9)
    ensures RatioAtLeast(value, max, 0.9) ==> RatioAtLeast(value, max, 0.75)
  {
  }

  /** A larger value never gets a milder message. */
  lemma WarningMonotone(v1: nat, v2: nat, max: nat)
    requires v1 <= v2
    ensures Warning(v1, max) == [OverQuota] ==> Warning(v2, max) == [OverQuota]
    ensures Warning(v1, max) != [] ==> Warning(v2, max) != []
  {
  }

  class MockMessenger {
    var sentMessages: seq<string>

    /** `MockMessenger::new`: nothing sent yet. */
    constructor ()
      ensures sentMessages == []
    {
      sentMessages := [];
    }

    /** `send`: records the message after those already sent. */
    method Send(message: string)
      modifies this
      ensures sentMessages == old(sentMessages) + [message]
    {
      sentMessages := sentMessages + [message];
    }
  }

  class LimitTracker {
    const messenger: MockMessenger
    var value: usize
    const max: usize

    /** `LimitTracker::new`: keeps the messenger and the maximum, value 0. */
    constructor (messenger: MockMessenger, max: usize)
      ensures this.messenger == messenger && this.max == max && value == 0
    {
      this.messenger := messenger;
      this.max := max;
      value := 0;
    }

    /** `set_value`: records `value`, then sends the message its ratio to
        `max` calls for, if any. */
    method SetValue(value: usize)
      modifies this, messenger
      ensures this.value == value
      ensures messenger.sentMessages == old(messenger.sentMessages) + Warning(value, max)
    {
      this.value := value;
      if max == 0 {
        if value > 0 {
          messenger.Send(OverQuota);
        }
      } else if value >= max {
        messenger.Send(OverQuota);
      } else if 10 * value >= 9 * max {
        messenger.Send(Urgent90);
      } else if 4 * value >= 3 * max {
        messenger.Send(Warning75);
      }
    }
  }

  /** The test `it_sends_an_over_75_percent_warning_message`: 80 of 100 sends
      one message, the 75% warning. */
  method SendsOver75PercentWarning() returns (sent: seq<string>)
    ensures |sent| == 1 && sent == [Warning75]
  {
    var mockMessenger := new MockMessenger();
    var limitTracker := new LimitTracker(mockMessenger, 100);
    limitTracker.SetValue(80);
    sent := mockMessenger.sentMessages;
  }
}
