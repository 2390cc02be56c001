/** The countdown sentence put after a prompt, and its remover (src/agent.rs, 1811-1863). */
module TimerLine {
  import opened Wrappers
  import Decimal

  const TIMER_PREFIX: string := "TIMER: about "
  const TIMER_SUFFIX: string := " minutes remain" + " on the candidate's" + " countdown."

  const I64_MIN: int := -0x8000_0000_0000_0000
  const I64_MAX: int := 0x7FFF_FFFF_FFFF_FFFF

  // ----- Rust's `to_string` and `parse` for i64 -----

  function IntText(v: int): string {
    if v < 0 then "-" + Decimal.OfNat(-v) else Decimal.OfNat(v)
  }

  predicate Digits(s: string)
    ensures Digits(s) <==> Decimal.AllDigits(s)
  {
    s == [] || ('0' <= s[0] <= '9' && Digits(s[1..]))
  }

  /** `str::parse::<i64>`: an optional sign, at least one digit, and a value in range. */
  function ParseI64(s: string): Option<int> {
    if s != [] && s[0] == '-' then ParseBody(s[1..], true)
    else if s != [] && s[0] == '+' then ParseBody(s[1..], false)
    else ParseBody(s, false)
  }

  function ParseBody(body: string, negative: bool): Option<int> {
    if body == [] || !Digits(body) then None
    else InRange(if negative then 0 - Decimal.ToNat(body) else Decimal.ToNat(body))
  }

  function InRange(v: int): Option<int> {
    if I64_MIN <= v <= I64_MAX then Some(v) else None
  }

  lemma ParseDigits(s: string)
    requires Decimal.AllDigits(s) && s != []
    ensures ParseI64(s) == InRange(Decimal.ToNat(s))
  {
    assert '0' <= s[0] <= '9';
  }

  lemma AfterFirst(c: char, s: string)
    ensures ([c] + s)[0] == c && ([c] + s)[1..] == s
  {
  }

  lemma ParseNegative(s: string)
    requires Decimal.AllDigits(s) && s != []
    ensures ParseI64("-" + s) == InRange(0 - Decimal.ToNat(s))
  {
    AfterFirst('-', s);
  }

  lemma ParseOfText(v: int)
    requires I64_MIN <= v <= I64_MAX
    ensures ParseI64(IntText(v)) == Some(v)
  {
    var n := if v < 0 then -v else v;
    Decimal.RoundTrip(n);
    if v < 0 {
      ParseNegative(Decimal.OfNat(n));
    } else {
      ParseDigits(Decimal.OfNat(n));
    }
  }

  /** A number of a digit string as it is rendered: at least one digit, and no leading zero. */
  ghost predicate IsNumeral(s: string) {
    s != [] && Decimal.AllDigits(s) && (|s| > 1 ==> s[0] != '0')
  }

  function Sign(negative: bool): string {
    if negative then "-" else ""
  }

  function Value(negative: bool, digits: string): int
    requires Decimal.AllDigits(digits)
  {
    if negative then 0 - Decimal.ToNat(digits) else Decimal.ToNat(digits)
  }

  /** A sign and a numeral of a 64-bit integer; zero has no minus sign. */
  ghost predicate CanonicalParts(negative: bool, digits: string) {
    && IsNumeral(digits)
    && I64_MIN <= Value(negative, digits) <= I64_MAX && (negative ==> Decimal.ToNat(digits) != 0)
  }

  ghost predicate Spells(s: string, negative: bool, digits: string) {
    CanonicalParts(negative, digits) && s == Sign(negative) + digits
  }

  ghost predicate IsCanonical(s: string) {
    exists negative: bool, digits: string :: Spells(s, negative, digits)
  }

  /** The check made of the minutes: they parse, and render back. */
  predicate ReadsBack(s: string) {
    ParseI64(s).Some? && IntText(ParseI64(s).value) == s
  }

  lemma NegativeReadsBack(digits: string)
    requires CanonicalParts(true, digits)
    ensures ReadsBack("-" + digits)
  {
    Decimal.Canonical(digits);
    ParseNegative(digits);
    var v: int := 0 - Decimal.ToNat(digits);
    assert v < 0 && IntText(v) == "-" + Decimal.OfNat(-v);
  }

  lemma NumeralReadsBack(digits: string)
    requires CanonicalParts(false, digits)
    ensures ReadsBack(digits)
  {
    Decimal.Canonical(digits);
    ParseDigits(digits);
  }

  lemma CanonicalReadsBack(s: string, negative: bool, digits: string)
    requires Spells(s, negative, digits)
    ensures ReadsBack(s)
  {
    if negative {
      NegativeReadsBack(digits);
    } else {
      assert s == digits;
      NumeralReadsBack(digits);
    }
  }

  lemma TextSpells(v: int, n: nat, digits: string)
    requires I64_MIN <= v <= I64_MAX && n == (if v < 0 then -v else v) && digits == Decimal.OfNat(n)
    ensures Spells(IntText(v), v < 0, digits)
  {
    Decimal.RoundTrip(n);
    assert Sign(false) + digits == digits;
  }

  lemma TextIsCanonical(v: int)
    requires I64_MIN <= v <= I64_MAX
    ensures IsCanonical(IntText(v))
  {
    var n := if v < 0 then -v else v;
    TextSpells(v, n, Decimal.OfNat(n));
  }

  /** It accepts exactly the canonical integers: no plus sign, no leading zero, no minus zero. */
  lemma CanonicalMinutes(s: string)
    ensures ReadsBack(s) <==> IsCanonical(s)
  {
    if ReadsBack(s) {
      TextIsCanonical(ParseI64(s).value);
    }
    if IsCanonical(s) {
      var negative, digits :| Spells(s, negative, digits);
      CanonicalReadsBack(s, negative, digits);
    }
  }

  // ----- the source's functions -----

  function TimerLine(minutes: int): string {
    TIMER_PREFIX + IntText(minutes) + TIMER_SUFFIX
  }

  function WithTimer(prompt: string, minutes: int): string {
    prompt + " " + TimerLine(minutes)
  }

  predicate OccursAt(s: string, pattern: string, at: nat) {
    at + |pattern| <= |s| && s[at..at + |pattern|] == pattern
  }

  /** The last place below `limit` where `pattern` starts. */
  function LastBelow(s: string, pattern: string, limit: nat): (at: Option<nat>)
    ensures at.Some? ==> at.value < limit && OccursAt(s, pattern, at.value)
    ensures forall k: nat :: (if at.Some? then at.value < k else true) && k < limit ==> !OccursAt(s, pattern, k)
  {
    if limit == 0 then None
    else if OccursAt(s, pattern, limit - 1) then Some(limit - 1)
    else LastBelow(s, pattern, limit - 1)
  }

  /** `rsplit_once`: the text on each side of the last occurrence. */
  function RsplitOnce(s: string, pattern: string): Option<(string, string)> {
    match LastBelow(s, pattern, |s| + 1)
    case None => None
    case Some(at) => Some((s[..at], s[at + |pattern|..]))
  }

  function StripSuffix(s: string, suffix: string): (r: Option<string>)
    ensures r.Some? <==> |suffix| <= |s| && s[|s| - |suffix|..] == suffix
    ensures r.Some? ==> s == r.value + suffix
  {
    if |suffix| <= |s| && s[|s| - |suffix|..] == suffix then Some(s[..|s| - |suffix|]) else None
  }

  function StripSeparator(s: string): Option<string> {
    match StripSuffix(s, " ")
    case Some(e) => Some(e)
    case None => StripSuffix(s, "\n")
  }

  function UnstampedEvent(prompt: string): string {
    match RsplitOnce(prompt, TIMER_PREFIX)
    case None => prompt
    case Some((prefix, clock)) =>
      match StripSeparator(prefix)
      case None => prompt
      case Some(event) =>
        match StripSuffix(clock, TIMER_SUFFIX)
        case None => prompt
        case Some(minutes) =>
          if ReadsBack(minutes) then event else prompt
  }

  // ----- stamping and unstamping -----

  /** What `unstamped_event` takes off: a separator and one canonical clock, at the very end. */
  ghost predicate StampedWith(prompt: string, event: string, separator: char, minutes: int) {
    && (separator == ' ' || separator == '\n')
    && I64_MIN <= minutes <= I64_MAX
    && prompt == event + [separator] + TimerLine(minutes)
  }

  lemma SuffixHasNoT(k: nat)
    requires k < |TIMER_SUFFIX|
    ensures TIMER_SUFFIX[k] != 'T'
  {
    var a, b, c := " minutes remain", " on the candidate's", " countdown.";
    assert |a| == 15 && |b| == 19 && |c| == 11;
    assert TIMER_SUFFIX == a + b + c;
    assert TIMER_SUFFIX[k] == if k < 15 then a[k] else if k < 34 then b[k - 15] else c[k - 34];
  }

  lemma PrefixHasOneT(k: nat)
    requires 0 < k < |TIMER_PREFIX|
    ensures TIMER_PREFIX[k] != 'T'
  {
    assert |TIMER_PREFIX| == 13;
  }

  /** Nothing after the first character of a clock can start another: no later character is a T. */
  lemma OneTInAClock(minutes: int, k: nat)
    requires 0 < k < |TimerLine(minutes)|
    ensures TimerLine(minutes)[k] != 'T'
  {
    Joined(TIMER_PREFIX, IntText(minutes), TIMER_SUFFIX, k);
  }

  lemma Joined(a: string, b: string, c: string, k: nat)
    requires a == TIMER_PREFIX && c == TIMER_SUFFIX && 0 < k < |a + b + c|
    requires forall i :: 0 <= i < |b| ==> b[i] != 'T'
    ensures (a + b + c)[k] != 'T'
  {
    if k < |a| {
      PrefixHasOneT(k);
    } else if k >= |a| + |b| {
      SuffixHasNoT(k - |a| - |b|);
    }
  }

  lemma OccurrencesStartWithT(s: string)
    ensures forall k: nat :: OccursAt(s, TIMER_PREFIX, k) ==> k < |s| && s[k] == 'T'
  {
    forall k: nat | OccursAt(s, TIMER_PREFIX, k)
      ensures k < |s| && s[k] == 'T'
    {
      assert s[k] == s[k..k + |TIMER_PREFIX|][0];
    }
  }

  lemma LastOccurrence(s: string, at: nat)
    requires OccursAt(s, TIMER_PREFIX, at)
    requires forall k :: at < k < |s| ==> s[k] != 'T'
    ensures RsplitOnce(s, TIMER_PREFIX) == Some((s[..at], s[at + |TIMER_PREFIX|..]))
  {
    OccurrencesStartWithT(s);
    assert LastBelow(s, TIMER_PREFIX, |s| + 1) == Some(at);
  }

  lemma NoTAfter(head: string, minutes: int)
    ensures forall k :: |head| < k < |head + TimerLine(minutes)| ==> (head + TimerLine(minutes))[k] != 'T'
  {
    var clock := TimerLine(minutes);
    forall k | |head| < k < |head + clock|
      ensures (head + clock)[k] != 'T'
    {
      OneTInAClock(minutes, k - |head|);
    }
  }

  /** The final clock is the last one, whatever the text before it says. */
  lemma FinalClockIsLast(head: string, minutes: int)
    ensures RsplitOnce(head + TimerLine(minutes), TIMER_PREFIX) == Some((head, IntText(minutes) + TIMER_SUFFIX))
  {
    NoTAfter(head, minutes);
    ClockParts(head, IntText(minutes));
    LastOccurrence(head + TimerLine(minutes), |head|);
  }

  lemma ClockParts(head: string, minutes: string)
    ensures var s := head + (TIMER_PREFIX + minutes + TIMER_SUFFIX);
            OccursAt(s, TIMER_PREFIX, |head|) && s[..|head|] == head
            && s[|head| + |TIMER_PREFIX|..] == minutes + TIMER_SUFFIX
  {
  }

  /** A stamped text gives back exactly what was stamped. */
  lemma StampedIsUnstamped(prompt: string, event: string, separator: char, minutes: int)
    requires StampedWith(prompt, event, separator, minutes)
    ensures UnstampedEvent(prompt) == event
  {
    FinalClockIsLast(event + [separator], minutes);
    assert (event + [separator])[|event|..] == [separator];
    assert (event + [separator])[..|event|] == event;
    var clock := IntText(minutes) + TIMER_SUFFIX;
    assert clock[|clock| - |TIMER_SUFFIX|..] == TIMER_SUFFIX && clock[..|clock| - |TIMER_SUFFIX|] == IntText(minutes);
    ParseOfText(minutes);
  }

  /** Removing the clock undoes adding it, for every prompt text, forged clocks included. */
  lemma UnstampInvertsStamp(prompt: string, minutes: int)
    requires I64_MIN <= minutes <= I64_MAX
    ensures UnstampedEvent(WithTimer(prompt, minutes)) == prompt
  {
    assert WithTimer(prompt, minutes) == prompt + [' '] + TimerLine(minutes);
    StampedIsUnstamped(WithTimer(prompt, minutes), prompt, ' ', minutes);
  }

  /** Where the removed clock stood. */
  lemma RemovedParts(prompt: string) returns (at: nat, event: string, text: string)
    requires UnstampedEvent(prompt) != prompt
    ensures OccursAt(prompt, TIMER_PREFIX, at)
    ensures StripSeparator(prompt[..at]) == Some(event)
    ensures StripSuffix(prompt[at + |TIMER_PREFIX|..], TIMER_SUFFIX) == Some(text) && ReadsBack(text)
  {
    at := LastBelow(prompt, TIMER_PREFIX, |prompt| + 1).value;
    event := StripSeparator(prompt[..at]).value;
    text := StripSuffix(prompt[at + |TIMER_PREFIX|..], TIMER_SUFFIX).value;
  }

  /** What has been removed was a separator and a clock. */
  lemma RemovedWasAClock(prompt: string) returns (event: string, separator: char, minutes: int)
    requires UnstampedEvent(prompt) != prompt
    ensures StampedWith(prompt, event, separator, minutes)
  {
    var at, text;
    at, event, text := RemovedParts(prompt);
    separator := SeparatorComesLast(prompt[..at], event);
    minutes := ParseI64(text).value;
    Rejoined(prompt, at, event + [separator], text);
  }

  lemma SeparatorComesLast(prefix: string, event: string) returns (separator: char)
    requires StripSeparator(prefix) == Some(event)
    ensures (separator == ' ' || separator == '\n') && prefix == event + [separator]
  {
    separator := prefix[|prefix| - 1];
  }

  /** Only a final clock is ever removed: the text changes exactly when it ends with one, and then
      what is left is the text before it. */
  lemma OnlyAFinalClockIsRemoved(prompt: string)
    ensures UnstampedEvent(prompt) != prompt <==>
              exists event: string, separator: char, minutes: int :: StampedWith(prompt, event, separator, minutes)
  {
    if event: string, separator: char, minutes: int :| StampedWith(prompt, event, separator, minutes) {
      StampedIsUnstamped(prompt, event, separator, minutes);
      assert |event| < |prompt|;
    }
    if UnstampedEvent(prompt) != prompt {
      var event, separator, minutes := RemovedWasAClock(prompt);
    }
  }

  ghost predicate EndsInClock(prompt: string, event: string, separator: char, minutes: string) {
    && (separator == ' ' || separator == '\n') && IsCanonical(minutes)
    && prompt == event + [separator] + (TIMER_PREFIX + minutes + TIMER_SUFFIX)
  }

  lemma StampEndsInClock(prompt: string, event: string, separator: char, minutes: int)
    requires StampedWith(prompt, event, separator, minutes)
    ensures EndsInClock(prompt, event, separator, IntText(minutes))
  {
    TextIsCanonical(minutes);
  }

  lemma ClockIsAStamp(prompt: string, event: string, separator: char, minutes: string)
    requires EndsInClock(prompt, event, separator, minutes)
    ensures exists value: int :: StampedWith(prompt, event, separator, value)
  {
    CanonicalMinutes(minutes);
    var value := ParseI64(minutes).value;
    assert TimerLine(value) == TIMER_PREFIX + minutes + TIMER_SUFFIX;
    assert StampedWith(prompt, event, separator, value);
  }

  /** The same by text: what is removed is a separator and a clock sentence, at the very end, whose minutes
      are a canonical integer. */
  lemma RemovedByText(prompt: string)
    ensures UnstampedEvent(prompt) != prompt <==>
              exists event: string, separator: char, minutes: string :: EndsInClock(prompt, event, separator, minutes)
  {
    OnlyAFinalClockIsRemoved(prompt);
    if event: string, separator: char, minutes: int :| StampedWith(prompt, event, separator, minutes) {
      StampEndsInClock(prompt, event, separator, minutes);
    }
    if event: string, separator: char, minutes: string :| EndsInClock(prompt, event, separator, minutes) {
      ClockIsAStamp(prompt, event, separator, minutes);
    }
  }

  lemma Rejoined(prompt: string, at: nat, head: string, minutes: string)
    requires OccursAt(prompt, TIMER_PREFIX, at) && prompt[..at] == head
    requires StripSuffix(prompt[at + |TIMER_PREFIX|..], TIMER_SUFFIX) == Some(minutes)
    ensures prompt == head + (TIMER_PREFIX + minutes + TIMER_SUFFIX)
  {
    var n := |TIMER_PREFIX|;
    ThreeParts(prompt, at, at + n);
    Regroup(head, TIMER_PREFIX, minutes, TIMER_SUFFIX);
  }

  lemma ThreeParts(s: string, i: nat, j: nat)
    requires i <= j <= |s|
    ensures s == s[..i] + (s[i..j] + s[j..])
  {
  }

  lemma Regroup(a: string, b: string, c: string, d: string)
    ensures a + (b + (c + d)) == a + (b + c + d)
  {
    assert b + (c + d) == b + c + d;
  }
}
