/**
 * Promise helpers of the cleanup registry (src/common/util.ts).
 *
 * A settled promise is modelled as an `Outcome`: fulfilled with a value, or
 * rejected with a reason that may be `undefined` (`None`). The race between a
 * promise and its timer is decided by the environment and passed in as a
 * `Race`; the timer itself is not modelled.
 */
module Util {

  /** JavaScript's `undefined` (None) or a defined value (Some). */
  datatype Option<+T> = None | Some(value: T)

  /** The error values the registry can observe. `TimeoutError` is the class
      that `error instanceof TimeoutError` tests for; every other thrown value
      is treated as a plain `Error` with a message. */
  datatype Error = TimeoutError(message: string) | GenericError(message: string)

  /** How a promise settled. A rejection reason may be `undefined`. */
  datatype Outcome<+T> = Fulfilled(value: T) | Rejected(reason: Option<Error>)

  /** Which side of `Promise.race` settles first in `promiseTimeout`. */
  datatype Race = PromiseFirst | TimerFirst

  /** `new Error()`: the concrete error that replaces an `undefined` rejection. */
  const EmptyError: Error := GenericError("")

  /** `promiseResult`: turns a settled promise into an `[error, value]` pair.
      The first slot is undefined exactly when the promise was fulfilled, and a
      rejection with `undefined` still yields a concrete error. */
  function PromiseResult<T>(o: Outcome<T>): (r: (Option<Error>, Option<T>))
    ensures r.0.None? <==> o.Fulfilled?
    ensures o.Fulfilled? ==> r.1 == Some(o.value)
    ensures o.Rejected? ==> r.1.None?
    ensures o.Rejected? && o.reason.Some? ==> r.0 == o.reason
    ensures o == Rejected(None) ==> r.0 == Some(EmptyError)
  {
    match o
    case Fulfilled(v) => (None, Some(v))
    case Rejected(reason) =>
      (if reason.Some? then reason else Some(EmptyError), None)
  }

  /** Awaiting a pair again: a defined error rethrows, otherwise the value is
      returned. This is the inverse that `promiseResult` is checked against. */
  function Rethrow<T>(pair: (Option<Error>, Option<T>)): (o: Outcome<T>)
    requires pair.0.Some? || pair.1.Some?
    ensures o.Rejected? <==> pair.0.Some?
    ensures o.Rejected? ==> o.reason == pair.0
    ensures o.Fulfilled? ==> pair.1 == Some(o.value)
  {
    if pair.0.Some? then Rejected(pair.0) else Fulfilled(pair.1.value)
  }

  const TimeoutPrefix: string := "function timed out after "

  /** The message of the `TimeoutError` raised when the timer wins. */
  function TimeoutMessage(ms: int): string
  {
    TimeoutPrefix + NumberToString(ms) + " ms"
  }

  /** The rendering of `ms` can be read back from a timeout message, from
      between its fixed prefix and the " ms" suffix. */
  lemma TimeoutMessageParts(ms: int)
    ensures var m := TimeoutMessage(ms);
            && |m| == |TimeoutPrefix| + |NumberToString(ms)| + 3
            && m[..|TimeoutPrefix|] == TimeoutPrefix && m[|m| - 3..] == " ms"
            && m[|TimeoutPrefix|..|m| - 3] == NumberToString(ms)
  {
  }

  /** `promiseTimeout`: if the promise settles first its outcome passes through
      unchanged, otherwise the call rejects with a `TimeoutError` naming `ms`. */
  function PromiseTimeout<T>(o: Outcome<T>, ms: int, race: Race): (r: Outcome<T>)
    ensures race == PromiseFirst ==> r == o
    ensures race == TimerFirst ==> r == Rejected(Some(TimeoutError(TimeoutMessage(ms))))
  {
    match race
    case PromiseFirst => o
    case TimerFirst => Rejected(Some(TimeoutError(TimeoutMessage(ms))))
  }

  function DigitChar(d: nat): char
    requires d < 10
  {
    "0123456789"[d]
  }

  predicate IsDigit(c: char)
  {
    '0' <= c <= '9'
  }

  /** The value of a digit character. */
  function DigitValue(c: char): int
  {
    c as int - '0' as int
  }

  /** The number a string of decimal digits spells, most significant first. */
  function DecimalValue(s: string): int
    decreases |s|
  {
    if s == [] then 0 else DecimalValue(s[..|s| - 1]) * 10 + DigitValue(s[|s| - 1])
  }

  /** Decimal rendering of a non-negative integer, as template literals print
      it: the digits spell `n`, with no leading zero. */
  function NatToString(n: nat): (s: string)
    ensures |s| >= 1
    ensures n < 10 <==> |s| == 1
    ensures forall i :: 0 <= i < |s| ==> IsDigit(s[i])
    ensures DecimalValue(s) == n
    ensures |s| > 1 ==> s[0] != '0'
    decreases n
  {
    if n < 10 then
      assert DigitValue(DigitChar(n)) == n;
      assert [DigitChar(n)][..0] == [];
      [DigitChar(n)]
    else
      var prefix := NatToString(n / 10);
      var s := prefix + [DigitChar(n % 10)];
      assert s[..|s| - 1] == prefix;
      assert DigitValue(DigitChar(n % 10)) == n % 10;
      s
  }

  /** Decimal rendering of an integer, with a leading '-' exactly when it is
      negative; the characters after the sign are digits that spell its
      magnitude, with no leading zero. */
  function NumberToString(n: int): (s: string)
    ensures |s| >= 1 && (s[0] == '-' <==> n < 0)
    ensures n >= 0 ==> DecimalValue(s) == n
    ensures n < 0 ==> |s| >= 2 && DecimalValue(s[1..]) == -n
    ensures forall i :: (if n < 0 then 1 else 0) <= i < |s| ==> IsDigit(s[i])
    ensures n >= 0 && |s| > 1 ==> s[0] != '0'
    ensures n < 0 ==> s[1] != '0'
  {
    if n < 0 then
      var digits := NatToString(-n);
      assert ("-" + digits)[1..] == digits;
      assert |digits| == 1 ==> digits[..0] == [];
      "-" + digits
    else
      var digits := NatToString(n);
      assert IsDigit(digits[0]);
      digits
  }

  lemma DigitCharInjective(a: nat, b: nat)
    requires a < 10 && b < 10 && DigitChar(a) == DigitChar(b)
    ensures a == b
  {
  }

  /** Distinct numbers print differently. */
  lemma {:induction false} NatToStringInjective(a: nat, b: nat)
    requires NatToString(a) == NatToString(b)
    ensures a == b
    decreases a
  {
    var s := NatToString(a);
    if a < 10 {
      DigitCharInjective(a, b);
    } else {
      assert b >= 10;
      assert s[|s| - 1] == DigitChar(a % 10) == DigitChar(b % 10);
      DigitCharInjective(a % 10, b % 10);
      assert s[..|s| - 1] == NatToString(a / 10) == NatToString(b / 10);
      NatToStringInjective(a / 10, b / 10);
    }
  }

  lemma NumberToStringInjective(a: int, b: int)
    requires NumberToString(a) == NumberToString(b)
    ensures a == b
  {
    var s := NumberToString(a);
    // a rendering starts with '-' exactly when the number is negative
    assert IsDigit(NatToString(if a < 0 then -a else a)[0]);
    assert IsDigit(NatToString(if b < 0 then -b else b)[0]);
    assert (a < 0) == (s[0] == '-') == (b < 0);
    if a < 0 {
      assert NatToString(-a) == s[1..] == NatToString(-b);
      NatToStringInjective(-a, -b);
    } else {
      NatToStringInjective(a, b);
    }
  }

  /** The timeout message determines the per-attempt timeout it reports, so an
      observer of an `itemFailed` event can tell which timeout expired. */
  lemma TimeoutMessageInjective(a: int, b: int)
    requires TimeoutMessage(a) == TimeoutMessage(b)
    ensures a == b
  {
    var m := TimeoutMessage(a);
    TimeoutMessageParts(a);
    TimeoutMessageParts(b);
    assert NumberToString(a) == m[|TimeoutPrefix|..|m| - 3] == NumberToString(b);
    NumberToStringInjective(a, b);
  }

  /** `promiseResult` loses nothing except the distinction between a rejection
      with `undefined` and one with `new Error()`. */
  lemma PromiseResultRoundTrip<T>(o: Outcome<T>)
    ensures o != Rejected(None) ==> Rethrow(PromiseResult(o)) == o
    ensures o == Rejected(None) ==> Rethrow(PromiseResult(o)) == Rejected(Some(EmptyError))
  {
  }

  /** A pair shaped like `promiseResult`'s result is reproduced from its rethrow. */
  lemma RethrowRoundTrip<T>(pair: (Option<Error>, Option<T>))
    requires pair.0.Some? <==> pair.1.None?
    ensures PromiseResult(Rethrow(pair)) == pair
  {
  }

  /** A timed-out attempt always surfaces as a `TimeoutError` through
      `promiseResult`, whatever the wrapped promise did. */
  lemma TimedOutAttemptError<T>(o: Outcome<T>, ms: int)
    ensures PromiseResult(PromiseTimeout(o, ms, TimerFirst)).0 == Some(TimeoutError(TimeoutMessage(ms)))
  {
  }
}
