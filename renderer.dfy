/**
 * src/renderer.rs: the completion time shown on the win screen, as
 * `MM:SS` of whole seconds.
 */
module Renderer {

  /** A `Duration`, counted in nanoseconds. */
  type Duration = nat

  const NANOS_PER_SEC: nat := 1_000_000_000

  /** `Duration::as_secs`: the whole seconds, sub-second parts dropped. */
  function AsSecs(time: Duration): nat {
    time / NANOS_PER_SEC
  }

  function DigitChar(d: nat): (c: char)
    requires d < 10
    ensures '0' <= c <= '9'
  {
    "0123456789"[d]
  }

  function DigitValue(c: char): nat {
    if '0' <= c <= '9' then (c as int - '0' as int) as nat else 0
  }

  /** The decimal numeral of `k`, without leading zeros. */
  function Decimal(k: nat): (r: string)
    ensures 1 <= |r|
    ensures forall i :: 0 <= i < |r| ==> '0' <= r[i] <= '9'
    ensures k < 10 ==> |r| == 1
    ensures 10 <= k < 100 ==> |r| == 2
    ensures 10 <= k ==> 2 <= |r|
  {
    if k < 10 then [DigitChar(k)] else Decimal(k / 10) + [DigitChar(k % 10)]
  }

  /** The value of a numeral, read from the least significant digit at its end. */
  function ParseDecimal(s: string): nat
    decreases |s|
  {
    if s == [] then 0 else ParseDecimal(s[..|s| - 1]) * 10 + DigitValue(s[|s| - 1])
  }

  lemma DigitRoundTrip(d: nat)
    requires d < 10
    ensures DigitValue(DigitChar(d)) == d
  {
  }

  /** Reading a numeral back gives the number. */
  lemma {:induction false} DecimalRoundTrip(k: nat)
    ensures ParseDecimal(Decimal(k)) == k
  {
    if k < 10 {
      DigitRoundTrip(k);
      assert [DigitChar(k)][..0] == [];
    } else {
      DecimalRoundTrip(k / 10);
      DigitRoundTrip(k % 10);
      var s := Decimal(k / 10) + [DigitChar(k % 10)];
      assert s[..|s| - 1] == Decimal(k / 10);
    }
  }

  /** `{:02}`: zeros in front up to a width of two. */
  function Pad2(s: string): (r: string)
    ensures |r| == if |s| < 2 then 2 else |s|
    decreases 2 - |s|
  {
    if |s| >= 2 then s else Pad2("0" + s)
  }

  /** A leading zero does not change the value of a numeral. */
  lemma {:induction false} LeadingZero(s: string)
    ensures ParseDecimal("0" + s) == ParseDecimal(s)
    decreases |s|
  {
    if s != [] {
      var t := "0" + s;
      assert t[..|t| - 1] == "0" + s[..|s| - 1];
      LeadingZero(s[..|s| - 1]);
    }
  }

  lemma {:induction false} Pad2Value(s: string)
    ensures ParseDecimal(Pad2(s)) == ParseDecimal(s)
    decreases 2 - |s|
  {
    if |s| < 2 {
      Pad2Value("0" + s);
      LeadingZero(s);
    }
  }

  /** `MM:SS` of the whole minutes and the seconds within the minute. */
  function TimeToText(time: Duration): (r: string)
    ensures 5 <= |r| && r[|r| - 3] == ':'
    ensures AsSecs(time) / 60 < 100 ==> |r| == 5
  {
    var secs := AsSecs(time);
    Pad2(Decimal(secs / 60)) + ":" + Pad2(Decimal(secs % 60))
  }

  /** A padded numeral reads back as its number. */
  lemma PaddedReadsBack(k: nat)
    ensures ParseDecimal(Pad2(Decimal(k))) == k
  {
    Pad2Value(Decimal(k));
    DecimalRoundTrip(k);
  }

  /** The text reads back as the minutes and the seconds of the duration. */
  lemma TimeToTextReadsBack(time: Duration)
    ensures var r := TimeToText(time);
      ParseDecimal(r[..|r| - 3]) == AsSecs(time) / 60
      && ParseDecimal(r[|r| - 2..]) == AsSecs(time) % 60
      && ParseDecimal(r[|r| - 2..]) < 60
  {
    var secs := AsSecs(time);
    var mm, ss := Pad2(Decimal(secs / 60)), Pad2(Decimal(secs % 60));
    var r := mm + ":" + ss;
    assert |ss| == 2;
    var front, back := r[..|r| - 3], r[|r| - 2..];
    assert front == mm;
    assert back == ss;
    PaddedReadsBack(secs / 60);
    PaddedReadsBack(secs % 60);
  }

  /** Parts of a second do not show. */
  lemma SubSecondsIgnored(time: Duration, nanos: nat)
    requires nanos < NANOS_PER_SEC
    ensures TimeToText(AsSecs(time) * NANOS_PER_SEC + nanos) == TimeToText(time)
  {
    assert AsSecs(AsSecs(time) * NANOS_PER_SEC + nanos) == AsSecs(time);
  }

  /** Two minutes and five seconds, and a few nanoseconds that do not show. */
  lemma TimeToTextExample()
    ensures TimeToText(125 * NANOS_PER_SEC + 999) == "02:05"
  {
    var t := 125 * NANOS_PER_SEC + 999;
    assert AsSecs(t) == 125;
    assert DigitChar(2) == '2' && DigitChar(5) == '5';
    assert Pad2(['2']) == Pad2(['0', '2']) == ['0', '2'];
    assert Pad2(['5']) == Pad2(['0', '5']) == ['0', '5'];
    assert TimeToText(t) == Pad2(Decimal(2)) + ":" + Pad2(Decimal(5));
  }
}
