/**
 * The pieces of Python's behaviour the RSS reader relies on: optional values,
 * exceptions, printed output, `list.index`, slicing a list with `[0:stop]`,
 * `str` of a non-negative integer and `str.capitalize`.
 */
module Python {

  /** A value that may be absent: Python's `None`, or a key a dictionary lacks. */
  datatype Option<T> = None | Some(value: T)

  /** A call that either returns a value or raises an exception with a message. */
  datatype Result<T> = Returned(value: T) | Raised(message: string)

  /**
   * What a piece of code printed, in order, and the message of the exception
   * that stopped it, if one did.
   */
  datatype Run<T> = Run(lines: seq<T>, raised: Option<string>)

  /** The message of a raised exception, `None` when the call returned. */
  function ErrorOf<T>(r: Result<T>): Option<string>
  {
    match r
    case Returned(_) => None
    case Raised(m) => Some(m)
  }

  /** Running `b` after `a`: once `a` has raised, `b` never starts. */
  function Then<T>(a: Run<T>, b: Run<T>): Run<T>
  {
    if a.raised.Some? then a else Run(a.lines + b.lines, b.raised)
  }

  /** Appending the value of one call to the list built by earlier calls; the first exception wins. */
  function Append<U>(built: Result<seq<U>>, next: Result<U>): Result<seq<U>>
  {
    match built
    case Raised(m) => Raised(m)
    case Returned(prefix) =>
      match next
      case Raised(m) => Raised(m)
      case Returned(v) => Returned(prefix + [v])
  }

  function Min(a: int, b: int): int
  {
    if a <= b then a else b
  }

  /**
   * How many items `xs[0:stop]` takes from a list of length `n`: a negative
   * `stop` counts from the end, and a `stop` past the end takes everything.
   */
  function SliceStop(stop: int, n: nat): (k: nat)
    ensures k <= n
    ensures 0 <= stop <= n ==> k == stop
    ensures n <= stop ==> k == n
  {
    if stop < 0 then (if n + stop < 0 then 0 else n + stop)
    else Min(stop, n)
  }

  /** Clamping `stop` to `n` first does not change what the slice takes. */
  lemma ClampKeepsSlice(stop: int, n: nat)
    ensures SliceStop(Min(stop, n), n) == SliceStop(stop, n)
  {
  }

  /** Python's `list.index`: the position of the first element equal to `x`. */
  function IndexOf<T(==)>(s: seq<T>, x: T): (i: nat)
    requires x in s
    ensures i < |s| && s[i] == x
    ensures forall j :: 0 <= j < i ==> s[j] != x
  {
    if s[0] == x then 0 else 1 + IndexOf(s[1..], x)
  }

  /** A position holding `x` with no `x` before it is what `list.index` finds. */
  lemma IndexOfIsFirst<T>(s: seq<T>, x: T, i: nat)
    requires i < |s| && s[i] == x
    requires forall j :: 0 <= j < i ==> s[j] != x
    ensures IndexOf(s, x) == i
  {
  }

  predicate IsDigit(c: char)
  {
    '0' <= c <= '9'
  }

  predicate IsDigits(s: string)
  {
    forall i :: 0 <= i < |s| ==> IsDigit(s[i])
  }

  function DigitChar(d: nat): (c: char)
    requires d < 10
    ensures IsDigit(c)
  {
    (48 + d) as char
  }

  function DigitValue(c: char): int
  {
    c as int - 48
  }

  /** `str(n)` for a non-negative integer. */
  function DecimalString(n: nat): (s: string)
    ensures |s| >= 1
    decreases n
  {
    if n < 10 then [DigitChar(n)] else DecimalString(n / 10) + [DigitChar(n % 10)]
  }

  /** `str(n)` is made of decimal digits and has no leading zero. */
  lemma {:induction false} DecimalStringDigits(n: nat)
    ensures IsDigits(DecimalString(n))
    ensures DecimalString(n)[0] == '0' ==> n == 0
    decreases n
  {
    if n >= 10 {
      DecimalStringDigits(n / 10);
      var s := DecimalString(n);
      assert s == DecimalString(n / 10) + [DigitChar(n % 10)];
      assert s[0] == DecimalString(n / 10)[0];
    }
  }

  /** The number a string of decimal digits denotes. */
  function DecimalValue(s: string): int
  {
    if s == [] then 0 else 10 * DecimalValue(s[..|s| - 1]) + DigitValue(s[|s| - 1])
  }

  /** Reading back what `str(n)` printed gives `n`. */
  lemma {:induction false} DecimalRoundTrip(n: nat)
    ensures DecimalValue(DecimalString(n)) == n
    decreases n
  {
    var s := DecimalString(n);
    if n < 10 {
      assert s[..|s| - 1] == [];
    } else {
      DecimalRoundTrip(n / 10);
      assert s[..|s| - 1] == DecimalString(n / 10);
    }
  }

  function Upper(c: char): char
  {
    if 'a' <= c <= 'z' then (c as int - 32) as char else c
  }

  function Lower(c: char): char
  {
    if 'A' <= c <= 'Z' then (c as int + 32) as char else c
  }

  /** Every character in lower case. */
  function LowerAll(s: string): (r: string)
    ensures |r| == |s|
  {
    if s == [] then [] else [Lower(s[0])] + LowerAll(s[1..])
  }

  /** `str.capitalize` on ASCII text. */
  function Capitalize(s: string): (r: string)
    ensures |r| == |s|
  {
    if s == [] then [] else [Upper(s[0])] + LowerAll(s[1..])
  }

  lemma {:induction false} LowerAllSpec(s: string)
    ensures forall i :: 0 <= i < |s| ==> LowerAll(s)[i] == Lower(s[i])
  {
    if s != [] {
      LowerAllSpec(s[1..]);
    }
  }

  /** A capitalized string has its first character in upper case and the others in lower case. */
  lemma CapitalizeSpec(s: string)
    ensures |Capitalize(s)| == |s|
    ensures |s| > 0 ==> Capitalize(s)[0] == Upper(s[0])
    ensures forall i :: 0 < i < |s| ==> Capitalize(s)[i] == Lower(s[i])
  {
    if s != [] {
      LowerAllSpec(s[1..]);
    }
  }
}
