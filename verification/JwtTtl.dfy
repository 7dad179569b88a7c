/** The token lifetime setting: the "hours:minutes" parser on 64-bit nanoseconds, and the memo of its result. */
module JwtTtl {
  import opened Wrappers

  const TWO_63: int := 0x8000_0000_0000_0000
  const TWO_64: int := 0x1_0000_0000_0000_0000
  const MINUTE: int := 60_000_000_000
  const HOUR: int := 3_600_000_000_000

  /** A duration in nanoseconds, or the number that could not be read. */
  datatype Outcome = Ok(nanos: int) | BadNumber(text: string)

  predicate FitsInt64(x: int) { -TWO_63 <= x < TWO_63 }

  /** Signed 64-bit arithmetic keeps the value modulo 2^64. */
  function Wrap(x: int): int { (x + TWO_63) % TWO_64 - TWO_63 }

  // ---- Numbers ----

  predicate IsDigit(c: char) { '0' <= c <= '9' }

  predicate AllDigits(s: string) {
    forall i :: 0 <= i < |s| ==> IsDigit(s[i])
  }

  function Value(ds: string): nat
    requires AllDigits(ds)
  {
    if ds == [] then 0 else 10 * Value(ds[..|ds| - 1]) + (ds[|ds| - 1] - '0') as nat
  }

  /** An optional sign, at least one digit, nothing else, and a value that fits. */
  function Atoi(s: string): Option<int> {
    var signed := s != [] && (s[0] == '-' || s[0] == '+');
    var ds := if signed then s[1..] else s;
    if ds == [] || !AllDigits(ds) then None
    else
      var n: int := if signed && s[0] == '-' then 0 - Value(ds) else Value(ds);
      if FitsInt64(n) then Some(n) else None
  }

  function Print(n: nat): string {
    if n < 10 then ['0' + n as char] else Print(n / 10) + ['0' + (n % 10) as char]
  }

  lemma {:induction false} PrintReadsBack(n: nat)
    ensures Print(n) != [] && AllDigits(Print(n)) && Value(Print(n)) == n
  {
    if n >= 10 {
      PrintReadsBack(n / 10);
      assert Print(n)[..|Print(n)| - 1] == Print(n / 10);
    } else {
      assert Print(n)[..0] == [];
    }
  }

  // ---- Parsing ----

  function IndexOfColon(s: string): (i: nat)
    ensures i <= |s| && (forall k :: 0 <= k < i ==> s[k] != ':') && (i < |s| ==> s[i] == ':')
  {
    if s == [] || s[0] == ':' then 0 else 1 + IndexOfColon(s[1..])
  }

  /** The fields between colons: always at least one. */
  function Fields(s: string): (fields: seq<string>)
    ensures fields != []
    decreases |s|
  {
    var i := IndexOfColon(s);
    if i == |s| then [s] else [s[..i]] + Fields(s[i + 1..])
  }

  /** What one parse of the setting yields; fields after the second are ignored. */
  function Parse(s: string): Outcome { ParseFields(Fields(s)) }

  function ParseFields(fields: seq<string>): Outcome
    requires fields != []
  {
    match Atoi(fields[0])
    case None => BadNumber(fields[0])
    case Some(hours) =>
      var res := Wrap(HOUR * hours);
      if |fields| == 1 then Ok(res)
      else
        match Atoi(fields[1])
        case None => BadNumber(fields[1])
        case Some(minutes) => Ok(Wrap(res + Wrap(MINUTE * minutes)))
  }

  lemma WrapIs(x: int)
    ensures FitsInt64(Wrap(x)) && Wrap(x) == x - TWO_64 * ((x + TWO_63) / TWO_64)
    ensures Wrap(x) == x <==> FitsInt64(x)
  {
  }

  lemma WrapShift(x: int, k: int)
    ensures Wrap(x + TWO_64 * k) == Wrap(x)
  {
    WrapIs(x);
    WrapIs(x + TWO_64 * k);
  }

  lemma WrapSum(a: int, b: int)
    ensures Wrap(Wrap(a) + Wrap(b)) == Wrap(a + b)
  {
    WrapIs(a);
    WrapIs(b);
    WrapShift(a + b, -((a + TWO_63) / TWO_64) - ((b + TWO_63) / TWO_64));
  }

  lemma FieldsFrom(field: string, rest: string)
    requires ':' !in field
    ensures Fields(field + ":" + rest) == [field] + Fields(rest)
  {
    var s := field + ":" + rest;
    assert s[|field|] == ':';
    assert forall k :: 0 <= k < |field| ==> s[k] == field[k];
    assert IndexOfColon(s) == |field|;
    assert s[..|field|] == field && s[|field| + 1..] == rest;
  }

  /** Whatever follows a second colon is ignored, for any two fields, numbers or not. */
  lemma ParseIgnoresRest(h: string, m: string, rest: string)
    requires ':' !in h && ':' !in m
    ensures Parse(h + ":" + m + ":" + rest) == Parse(h + ":" + m)
  {
    FieldsOfThree(h, m, rest);
    FieldsOfTwo(h, m);
    FirstTwoCount([h, m] + Fields(rest), [h, m]);
  }

  lemma FieldsOfTwo(h: string, m: string)
    requires ':' !in h && ':' !in m
    ensures Fields(h + ":" + m) == [h, m]
  {
    FieldsFrom(h, m);
    assert IndexOfColon(m) == |m|;
  }

  lemma FieldsOfThree(h: string, m: string, rest: string)
    requires ':' !in h && ':' !in m
    ensures Fields(h + ":" + m + ":" + rest) == [h, m] + Fields(rest)
  {
    var tail := m + ":" + rest;
    Regroup(h + ":", m, ":");
    Regroup(h + ":", m + ":", rest);
    FieldsFrom(m, rest);
    FieldsFrom(h, tail);
    Regroup([h], [m], Fields(rest));
  }

  lemma Regroup<T>(a: seq<T>, b: seq<T>, c: seq<T>)
    ensures a + b + c == a + (b + c)
  {
  }

  lemma FirstTwoCount(a: seq<string>, b: seq<string>)
    requires |a| >= 2 && |b| >= 2 && a[0] == b[0] && a[1] == b[1]
    ensures ParseFields(a) == ParseFields(b)
  {
  }

  lemma AtoiOfDigits(ds: string)
    requires ds != [] && AllDigits(ds)
    ensures Atoi(ds) == if Value(ds) < TWO_63 then Some(Value(ds)) else None
  {
    assert IsDigit(ds[0]);
  }

  /** For any two runs of digits, leading zeros included, the parse is the exact number of minutes if and only if
      that many nanoseconds fit in 64 bits. Beyond the limit it wraps or reports a number out of range. */
  lemma ParseExactlyWhenItFits(h: string, m: string, s: string, hours: nat, minutes: nat)
    requires h != [] && m != [] && AllDigits(h) && AllDigits(m) && s == h + ":" + m
    requires hours == Value(h) && minutes == Value(m)
    ensures Parse(s) == Ok(MINUTE * (60 * hours + minutes)) <==> MINUTE * (60 * hours + minutes) < TWO_63
  {
    DigitsHaveNoColon(h);
    DigitsHaveNoColon(m);
    FieldsOfTwo(h, m);
    DigitFields(h, m);
    ExactlyWhenItFits(ParseFields([h, m]), h, m, hours, minutes);
  }

  lemma DigitsHaveNoColon(ds: string)
    requires AllDigits(ds)
    ensures ':' !in ds
  {
    assert !IsDigit(':');
  }

  /** What two numbers of hours and minutes come to. */
  predicate IsNumberOutcome(outcome: Outcome, h: string, m: string, hours: nat, minutes: nat) {
    if hours >= TWO_63 then outcome == BadNumber(h)
    else if minutes >= TWO_63 then outcome == BadNumber(m)
    else outcome == Ok(Wrap(HOUR * hours + MINUTE * minutes))
  }

  lemma DigitFields(h: string, m: string)
    requires h != [] && m != [] && AllDigits(h) && AllDigits(m)
    ensures IsNumberOutcome(ParseFields([h, m]), h, m, Value(h), Value(m))
  {
    AtoiOfDigits(h);
    AtoiOfDigits(m);
    if Value(h) < TWO_63 && Value(m) < TWO_63 {
      WrapSum(HOUR * Value(h), MINUTE * Value(m));
    }
  }

  lemma ExactlyWhenItFits(outcome: Outcome, h: string, m: string, hours: nat, minutes: nat)
    requires IsNumberOutcome(outcome, h, m, hours, minutes)
    ensures outcome == Ok(MINUTE * (60 * hours + minutes)) <==> MINUTE * (60 * hours + minutes) < TWO_63
  {
    WrapIs(HOUR * hours + MINUTE * minutes);
  }

  /** Printing and parsing are inverse up to 2562047 hours and 47 minutes, which is the last value before overflow. */
  lemma PrintedTtlReadsBack(hours: nat, minutes: nat)
    ensures Parse(Print(hours) + ":" + Print(minutes)) == Ok(MINUTE * (60 * hours + minutes))
        <==> 60 * hours + minutes <= 60 * 2562047 + 47
  {
    PrintReadsBack(hours);
    PrintReadsBack(minutes);
    var text := Print(hours) + ":" + Print(minutes);
    ParseExactlyWhenItFits(Print(hours), Print(minutes), text, hours, minutes);
  }

  /** Numbers are decimal, with an optional sign, and must fit in 64 bits. */
  lemma AtoiOfSigned(sign: string, ds: string, n: nat)
    requires (sign == "" || sign == "+" || sign == "-") && ds != [] && AllDigits(ds) && n == Value(ds)
    ensures sign != "-" ==> Atoi(sign + ds) == if n <= 0x7FFF_FFFF_FFFF_FFFF then Some(n) else None
    ensures sign == "-" ==> Atoi(sign + ds) == if n <= 0x8000_0000_0000_0000 then Some(0 - n) else None
  {
    assert IsDigit(ds[0]);
    if sign == "" {
      assert sign + ds == ds;
    } else {
      assert (sign + ds)[0] == sign[0] && (sign + ds)[1..] == ds;
    }
  }

  /** Nothing else is a number. */
  lemma AtoiOnlyOfSigned(s: string)
    requires Atoi(s).Some?
    ensures exists sign, ds :: s == sign + ds && (sign == "" || sign == "+" || sign == "-") && ds != [] && AllDigits(ds)
  {
    if s[0] == '-' || s[0] == '+' {
      assert s == [s[0]] + s[1..];
    } else {
      assert s == "" + s;
    }
  }

  lemma ValueAppended(ds: string, c: char)
    requires AllDigits(ds) && IsDigit(c)
    ensures AllDigits(ds + [c]) && Value(ds + [c]) == 10 * Value(ds) + (c as int - '0' as int)
    ensures Value([]) == 0
  {
    assert (ds + [c])[..|ds|] == ds;
  }

  /** A text without a colon is hours alone: "24" is 24 hours. What is no number is reported. */
  lemma ParseHours(h: string)
    requires ':' !in h
    ensures Atoi(h).None? ==> Parse(h) == BadNumber(h)
    ensures Atoi(h).Some? && -TWO_63 <= 3_600_000_000_000 * Atoi(h).value < TWO_63 ==>
              Parse(h) == Ok(3_600_000_000_000 * Atoi(h).value)
  {
    assert IndexOfColon(h) == |h|;
    if Atoi(h).Some? {
      WrapIs(HOUR * Atoi(h).value);
    }
  }

  /** With a colon the second field is minutes, which carry their own sign. The first field that is no number is
      reported. */
  lemma ParseHoursAndMinutes(h: string, m: string)
    requires ':' !in h && ':' !in m
    ensures Atoi(h).None? ==> Parse(h + ":" + m) == BadNumber(h)
    ensures Atoi(h).Some? && Atoi(m).None? ==> Parse(h + ":" + m) == BadNumber(m)
    ensures Atoi(h).Some? && Atoi(m).Some?
              && -TWO_63 <= 3_600_000_000_000 * Atoi(h).value + 60_000_000_000 * Atoi(m).value < TWO_63 ==>
              Parse(h + ":" + m) == Ok(3_600_000_000_000 * Atoi(h).value + 60_000_000_000 * Atoi(m).value)
  {
    FieldsOfTwo(h, m);
    FieldsParsed(h, m);
  }

  lemma FieldsParsed(h: string, m: string)
    ensures Atoi(h).None? ==> ParseFields([h, m]) == BadNumber(h)
    ensures Atoi(h).Some? && Atoi(m).None? ==> ParseFields([h, m]) == BadNumber(m)
    ensures Atoi(h).Some? && Atoi(m).Some?
              && -TWO_63 <= 3_600_000_000_000 * Atoi(h).value + 60_000_000_000 * Atoi(m).value < TWO_63 ==>
              ParseFields([h, m]) == Ok(3_600_000_000_000 * Atoi(h).value + 60_000_000_000 * Atoi(m).value)
  {
    if Atoi(h).Some? && Atoi(m).Some? {
      var a, b := HOUR * Atoi(h).value, MINUTE * Atoi(m).value;
      WrapSum(a, b);
      WrapIs(b);
      WrapIs(a + b);
      WrapSum(a, Wrap(b));
      assert Wrap(Wrap(b)) == Wrap(b);
    }
  }

  // ---- The memo ----

  /** The server settings, as far as the lifetime goes: its text and the memo of its parse. */
  datatype State = Unset | Settings(text: string, memo: Option<int>)

  /** Read is a call of `JWTTTL`. Reload is a call of `loadServerSettings` that found the section; it carries the new
      text when the section has one. Defaults is `makeDefaultSettings`. */
  datatype Step = Read | Reload(text: Option<string>) | Defaults

  function Current(s: State): Outcome {
    match s
    case Unset => Ok(24 * HOUR)
    case Settings(text, memo) => if memo.Some? then Ok(memo.value) else Parse(text)
  }

  function Apply(s: State, step: Step): State {
    match step
    case Defaults => Settings("24:00", None)
    case Read =>
      if s.Settings? && s.memo.None? && Parse(s.text).Ok? then s.(memo := Some(Parse(s.text).nanos)) else s
    case Reload(text) =>
      if s.Unset? then s else Settings(if text.Some? then text.value else s.text, None)
  }

  function After(s: State, steps: seq<Step>): State
    decreases |steps|
  {
    if steps == [] then s else After(Apply(s, steps[0]), steps[1..])
  }

  predicate Fresh(s: State) {
    s.Settings? && s.memo.Some? ==> Parse(s.text) == Ok(s.memo.value)
  }

  /** In every run of reads and reloads the memo, when there is one, is a fresh parse of the current text,
      and a read answers as if there were no memo. */
  lemma {:induction false} MemoIsFresh(s: State, steps: seq<Step>)
    requires Fresh(s)
    ensures Fresh(After(s, steps))
    ensures var t := After(s, steps); Current(t) == if t.Unset? then Ok(24 * HOUR) else Parse(t.text)
    decreases |steps|
  {
    if steps != [] {
      MemoIsFresh(Apply(s, steps[0]), steps[1..]);
    }
  }

  /** Without settings, and with the built-in ones, a token lives a day. */
  lemma DefaultIsADay(s: State)
    ensures Current(Unset) == Ok(86_400_000_000_000)
    ensures Current(Apply(s, Defaults)) == Ok(86_400_000_000_000)
  {
    ValueAppended([], '2');
    ValueAppended([] + ['2'], '4');
    ValueAppended([], '0');
    ValueAppended([] + ['0'], '0');
    assert "24" == [] + ['2'] + ['4'] && "00" == [] + ['0'] + ['0'];
    assert "24:00" == "24" + ":" + "00";
    ParseExactlyWhenItFits("24", "00", "24:00", 24, 0);
  }

  /** After a reload with a new text, and any number of reads, a read answers the parse of that text; a reload whose
      section has no text keeps the old one. */
  lemma {:induction false} ReadAfterReload(s: State, found: Option<string>, later: seq<Step>)
    requires s.Settings? && forall i :: 0 <= i < |later| ==> later[i].Read?
    ensures Current(After(Apply(s, Reload(found)), later)) == Parse(if found.Some? then found.value else s.text)
  {
    ReadsKeepText(Apply(s, Reload(found)), later);
    MemoIsFresh(Apply(s, Reload(found)), later);
  }

  lemma {:induction false} ReadsKeepText(s: State, later: seq<Step>)
    requires s.Settings? && forall i :: 0 <= i < |later| ==> later[i].Read?
    ensures After(s, later).Settings? && After(s, later).text == s.text
    decreases |later|
  {
    if later != [] {
      assert forall i :: 0 <= i < |later[1..]| ==> later[1..][i] == later[i + 1];
      ReadsKeepText(Apply(s, later[0]), later[1..]);
    }
  }

  class ServerSettings {
    var loaded: bool
    var text: string
    var jwtTTL: Option<int>

    ghost function View(): State
      reads this
    {
      if loaded then Settings(text, jwtTTL) else Unset
    }

    constructor ()
      ensures View() == Unset
    {
      loaded, text, jwtTTL := false, "", None;
    }

    method MakeDefaultSettings()
      modifies this
      ensures View() == Apply(old(View()), Defaults)
    {
      loaded, text, jwtTTL := true, "24:00", None;
    }

    method JWTTTL() returns (r: Outcome)
      requires Fresh(View())
      modifies this`jwtTTL
      ensures View() == Apply(old(View()), Read) && Fresh(View())
      ensures r == if loaded then Parse(text) else Ok(24 * HOUR)
    {
      if !loaded {
        return Ok(24 * HOUR);
      }
      if jwtTTL.Some? {
        return Ok(jwtTTL.value);
      }
      var fields := Fields(text);
      var hours := Atoi(fields[0]);
      if hours.None? {
        return BadNumber(fields[0]);
      }
      var res := Wrap(HOUR * hours.value);
      if |fields| > 1 {
        var minutes := Atoi(fields[1]);
        if minutes.None? {
          return BadNumber(fields[1]);
        }
        res := Wrap(res + Wrap(MINUTE * minutes.value));
      }
      jwtTTL := Some(res);
      return Ok(res);
    }

    /** `found` says whether the configuration has the settings section, `ttl` the lifetime in it, if any. */
    method LoadServerSettings(found: bool, ttl: Option<string>)
      requires loaded && Fresh(View())
      modifies this
      ensures View() == (if found then Apply(old(View()), Reload(ttl)) else old(View())) && Fresh(View())
      ensures loaded && text == (if found && ttl.Some? then ttl.value else old(text))
      ensures jwtTTL == if found then None else old(jwtTTL)
    {
      if !found {
        return;
      }
      if ttl.Some? {
        text := ttl.value;
      }
      jwtTTL := None;
    }
  }
}
