/** Reading and printing times of day as HH:MM. */
module Clock {
  import opened Wrappers
  import opened Text

  datatype Time = Time(hour: int, minute: int)

  predicate IsTime(t: Time) {
    0 <= t.hour <= 23 && 0 <= t.minute <= 59
  }

  datatype TimeError = BadFormat | BadHour | BadMinute | NoSuchTime

  // ── Numerals of the eight-bit integer type ──

  predicate IsDigit(c: char) {
    '0' <= c <= '9'
  }

  predicate AllDigits(s: string) {
    forall c :: c in s ==> IsDigit(c)
  }

  function Value(s: string): nat
    requires AllDigits(s)
  {
    if s == "" then 0
    else
      assert s[|s| - 1] in s;
      10 * Value(s[..|s| - 1]) + (s[|s| - 1] - '0') as nat
  }

  /** A numeral: an optional sign and one digit or more, leading zeros allowed. */
  function Numeral(s: string): Option<int> {
    var signed := s != "" && (s[0] == '+' || s[0] == '-');
    var digits := if signed then s[1..] else s;
    if digits == "" || !AllDigits(digits) then None
    else Some(if signed && s[0] == '-' then 0 - Value(digits) else Value(digits) as int)
  }

  function ParseI8(s: string): Option<int> {
    var n := Numeral(s);
    if n.Some? && -128 <= n.value <= 127 then n else None
  }

  function ParseTime(s: string): Result<Time, TimeError> {
    var parts := Split(s, ':');
    if |parts| != 2 then Err(BadFormat)
    else if ParseI8(parts[0]).None? then Err(BadHour)
    else if ParseI8(parts[1]).None? then Err(BadMinute)
    else
      var t := Time(ParseI8(parts[0]).value, ParseI8(parts[1]).value);
      if IsTime(t) then Ok(t) else Err(NoSuchTime)
  }

  function DigitOf(n: nat): char
    requires n <= 9
  {
    '0' + n as char
  }

  function TwoDigits(n: nat): string
    requires n <= 99
  {
    [DigitOf(n / 10), DigitOf(n % 10)]
  }

  function PrintTime(t: Time): string
    requires IsTime(t)
  {
    TwoDigits(t.hour) + ":" + TwoDigits(t.minute)
  }

  // ── Reading ──

  /** `s` writes the time `t`: two numerals with these values around its only colon. */
  predicate Writes(s: string, t: Time) {
    exists i :: 0 <= i < |s| && WritesAt(s, t, i)
  }

  predicate WritesAt(s: string, t: Time, i: nat)
    requires i < |s|
  {
    && s[i] == ':' && Free(s[..i], ':') && Free(s[i + 1..], ':')
    && Numeral(s[..i]) == Some(t.hour) && Numeral(s[i + 1..]) == Some(t.minute)
  }

  lemma {:induction false} TwoParts(s: string, i: nat)
    requires i < |s| && s[i] == ':' && Free(s[..i], ':') && Free(s[i + 1..], ':')
    ensures Split(s, ':') == [s[..i], s[i + 1..]]
  {
    assert s == s[..i] + [':'] + s[i + 1..];
    SplitFirst(s[..i], s[i + 1..], ':');
    SplitFree(s[i + 1..], ':');
  }

  /** A text is accepted as a time exactly when it writes one of the day's minutes, with any signs and zeros. */
  lemma {:induction false} AcceptsIff(s: string, t: Time)
    ensures ParseTime(s) == Ok(t) <==> IsTime(t) && Writes(s, t)
  {
    if ParseTime(s) == Ok(t) {
      var parts := Split(s, ':');
      JoinSplit(s, ':');
      assert s == parts[0] + ":" + parts[1];
      assert parts[0] in parts && parts[1] in parts;
      var i := |parts[0]|;
      assert s[..i] == parts[0] && s[i + 1..] == parts[1];
      assert WritesAt(s, t, i);
    }
    if IsTime(t) && Writes(s, t) {
      var i :| 0 <= i < |s| && WritesAt(s, t, i);
      TwoParts(s, i);
    }
  }

  /** The only colon of the text is at `i`. */
  predicate OneColonAt(s: string, i: nat) {
    i < |s| && s[i] == ':' && Free(s[..i], ':') && Free(s[i + 1..], ':')
  }

  /** A numeral of an eight-bit integer. */
  predicate IsI8Text(s: string) {
    Numeral(s).Some? && -128 <= Numeral(s).value < 128
  }

  lemma {:induction false} TwoPartsIff(s: string)
    ensures |Split(s, ':')| == 2 <==> exists i: nat :: OneColonAt(s, i)
  {
    if |Split(s, ':')| == 2 {
      var parts := Split(s, ':');
      JoinSplit(s, ':');
      assert s == parts[0] + ":" + parts[1];
      assert parts[0] in parts && parts[1] in parts;
      var i := |parts[0]|;
      assert s[..i] == parts[0] && s[i + 1..] == parts[1];
      assert OneColonAt(s, i);
    }
    if i: nat :| OneColonAt(s, i) {
      TwoParts(s, i);
    }
  }

  /** Which error a text that is no time gives: the first of the checks it fails. */
  lemma {:induction false} RejectsWith(s: string)
    ensures ParseTime(s) == Err(BadFormat) <==> !exists i: nat :: OneColonAt(s, i)
    ensures forall i: nat :: OneColonAt(s, i) ==>
              && (ParseTime(s) == Err(BadHour) <==> !IsI8Text(s[..i]))
              && (ParseTime(s) == Err(BadMinute) <==> IsI8Text(s[..i]) && !IsI8Text(s[i + 1..]))
              && (ParseTime(s) == Err(NoSuchTime) <==>
                    && IsI8Text(s[..i]) && IsI8Text(s[i + 1..])
                    && !(0 <= Numeral(s[..i]).value < 24 && 0 <= Numeral(s[i + 1..]).value < 60))
  {
    TwoPartsIff(s);
    forall i: nat | OneColonAt(s, i)
      ensures Split(s, ':') == [s[..i], s[i + 1..]]
    {
      TwoParts(s, i);
    }
  }

  // ── Printing ──

  lemma {:induction false} TwoDigitsRead(n: nat)
    requires n <= 99
    ensures Numeral(TwoDigits(n)) == Some(n) && Free(TwoDigits(n), ':')
  {
    var s := TwoDigits(n);
    assert s[..1] == [s[0]] && s[..1][..0] == "";
    assert Value(s[..1]) == n / 10;
  }

  /** A printed time is two digits, a colon and two digits, and reads back as itself. */
  lemma {:induction false} PrintedTimeReadsBack(t: Time)
    requires IsTime(t)
    ensures var s := PrintTime(t);
            && ParseTime(s) == Ok(t)
            && |s| == 5 && s[2] == ':' && IsDigit(s[0]) && IsDigit(s[1]) && IsDigit(s[3]) && IsDigit(s[4])
  {
    var s := PrintTime(t);
    TwoDigitsRead(t.hour);
    TwoDigitsRead(t.minute);
    assert s[..2] == TwoDigits(t.hour) && s[3..] == TwoDigits(t.minute);
    assert WritesAt(s, t, 2);
    AcceptsIff(s, t);
  }

  /**
   Printing what was read is a canonical form: it reads as the same time, is its own
   canonical form, and is shared by exactly the texts that read as that time.
   */
  lemma {:induction false} PrintingIsCanonical(s: string, r: string)
    requires ParseTime(s).Ok? && ParseTime(r).Ok?
    ensures var c := PrintTime(ParseTime(s).value);
            && ParseTime(c) == ParseTime(s)
            && |c| == 5
            && (PrintTime(ParseTime(r).value) == c <==> ParseTime(r) == ParseTime(s))
  {
    PrintedTimeReadsBack(ParseTime(s).value);
    PrintedTimeReadsBack(ParseTime(r).value);
  }

  // ── Other spellings ──

  predicate AllZeros(s: string) {
    forall i :: 0 <= i < |s| ==> s[i] == '0'
  }

  lemma {:induction false} ZerosBefore(zeros: string, s: string)
    requires AllZeros(zeros) && AllDigits(s)
    ensures AllDigits(zeros + s) && Value(zeros + s) == Value(s)
    decreases |zeros + s|
  {
    if s == "" {
      assert zeros + s == zeros;
      if zeros != "" {
        ZerosBefore(zeros[..|zeros| - 1], "");
        assert zeros[..|zeros| - 1] + "" == zeros[..|zeros| - 1];
      }
    } else {
      ZerosBefore(zeros, s[..|s| - 1]);
      assert (zeros + s)[..|zeros + s| - 1] == zeros + s[..|s| - 1];
    }
  }

  lemma {:induction false} SpelledNumeral(zeros: string, n: nat)
    requires AllZeros(zeros) && n <= 99
    ensures forall sign :: sign == "" || sign == "+" ==> Numeral(sign + zeros + TwoDigits(n)) == Some(n)
    ensures Numeral("-" + zeros + TwoDigits(n)) == Some(0 - n)
  {
    var s := zeros + TwoDigits(n);
    TwoDigitsRead(n);
    ZerosBefore(zeros, TwoDigits(n));
    assert IsDigit(s[0]) by { assert s[0] in s; }
    assert "" + zeros + TwoDigits(n) == s;
    assert ("+" + zeros + TwoDigits(n))[1..] == s == ("-" + zeros + TwoDigits(n))[1..];
  }

  /** A text before the two digits of the hour is read when it leaves the hour's value. */
  lemma {:induction false} SpelledTime(before: string, t: Time)
    requires IsTime(t) && Free(before, ':') && Numeral(before + TwoDigits(t.hour)) == Some(t.hour)
    ensures ParseTime(before + PrintTime(t)) == Ok(t)
  {
    TwoDigitsRead(t.hour);
    TwoDigitsRead(t.minute);
    var s, i := before + PrintTime(t), |before| + 2;
    assert s[..i] == before + TwoDigits(t.hour) && s[i + 1..] == TwoDigits(t.minute);
    assert WritesAt(s, t, i);
    AcceptsIff(s, t);
  }

  /** Zeros and a plus before the hour change nothing, nor does a minus at midnight: HH:MM is not the only form read. */
  lemma {:induction false} OtherSpellingsAreRead(t: Time, sign: string, zeros: string)
    requires IsTime(t) && AllZeros(zeros)
    requires sign == "" || sign == "+" || (sign == "-" && t.hour == 0)
    ensures ParseTime(sign + zeros + PrintTime(t)) == Ok(t)
  {
    SpelledNumeral(zeros, t.hour);
    SpelledTime(sign + zeros, t);
  }
}
