/**
 * Value types shared by every part of the fraud rule engine model:
 * optional values, identifiers, instants, exceptions and the outcome of
 * an operation that may throw.
 */
module Base {

  datatype Option<+T> = None | Some(value: T)

  /** A Guid is opaque; 0 plays the part of Guid.Empty. Fresh identifiers are
      supplied by the caller (they stand for Guid.NewGuid()). */
  type Guid = nat
  const EmptyGuid: Guid := 0

  /** A DateTime is a count of 100-nanosecond ticks; 0 is default(DateTime). */
  type Ticks = int
  const DefaultTicks: Ticks := 0

  const TicksPerSecond: int := 10_000_000
  const TicksPerMinute: int := 60 * TicksPerSecond
  const TicksPerHour: int := 60 * TicksPerMinute
  const TicksPerDay: int := 24 * TicksPerHour

  /** DateTime.Date: the midnight that starts the day holding t. */
  function DateOf(t: Ticks): (d: Ticks)
    ensures d <= t < d + TicksPerDay
    ensures d % TicksPerDay == 0
  {
    t - t % TicksPerDay
  }

  /** Truncating an instant that is already a midnight changes nothing. */
  lemma DateOfIdempotent(t: Ticks)
    ensures DateOf(DateOf(t)) == DateOf(t)
  {
  }

  /** Every instant of the day [DateOf(t), DateOf(t) + 1 day) truncates to DateOf(t). */
  lemma {:induction false} DateOfWithinDay(t: Ticks, u: Ticks)
    requires DateOf(t) <= u < DateOf(t) + TicksPerDay
    ensures DateOf(u) == DateOf(t)
  {
    var d := DateOf(t);
    var k := d / TicksPerDay;
    assert d == k * TicksPerDay;
    assert u == k * TicksPerDay + (u - d);
    assert 0 <= u - d < TicksPerDay;
    assert u % TicksPerDay == u - d && u / TicksPerDay == k;
  }

  /** Sequence concatenation regroups freely. KafkaEventProducer.TryAttempt
      and OutboxPublisher.PublishNext call it to regroup a log written so far
      with the part one step appends; stating it as a call keeps those methods'
      proofs small. */
  lemma Associative<T>(a: seq<T>, b: seq<T>, c: seq<T>)
    ensures (a + b) + c == a + (b + c)
  {
  }

  /** A .NET exception: its runtime type name, its message and its inner exception. */
  datatype Exception = Exception(typeName: string, message: string, inner: Option<Exception>)

  /** The outcome of an operation that either returns a value or throws. */
  datatype Try<+T> = Ok(value: T) | Throws(error: Exception)

  const ArgumentNullExceptionType := "ArgumentNullException"
  const InvalidOperationExceptionType := "InvalidOperationException"
  const DbUpdateExceptionType := "DbUpdateException"
  const PostgresExceptionType := "PostgresException"
  /** Name of the runtime type ProduceException<string, string>. */
  const ProduceExceptionType := "ProduceException`2"
  const ConsumeExceptionType := "ConsumeException"
  const JsonExceptionType := "JsonException"
  const ValidationExceptionType := "ValidationException"

  /** The message of the DbUpdateException a failed save raises; the database's
      own error is its inner exception. */
  const DbUpdateMessage := "An error occurred while saving the entity changes. See the inner exception for details."
}

/** Ordinal string operations used by the rules and the error classifiers. */
module Text {

  /** t occurs in s at position 0. */
  predicate StartsWith(s: string, t: string) {
    |t| <= |s| && s[..|t|] == t
  }

  /** String.Contains with ordinal comparison: t occurs somewhere in s. */
  predicate Contains(s: string, t: string)
    decreases |s|
  {
    StartsWith(s, t) || (|s| > 0 && Contains(s[1..], t))
  }

  /** Whatever surrounds it, a string contains each of its pieces. */
  lemma {:induction false} ContainsConcat(a: string, t: string, b: string)
    ensures Contains(a + t + b, t)
  {
    if a == [] {
      assert (a + t + b)[..|t|] == t;
    } else {
      assert (a + t + b)[1..] == a[1..] + t + b;
      ContainsConcat(a[1..], t, b);
    }
  }

  /** The invariant upper-case mapping restricted to ASCII letters. */
  function UpperChar(c: char): (u: char)
    ensures 'a' <= c <= 'z' ==> 'A' <= u <= 'Z'
    ensures !('a' <= c <= 'z') ==> u == c
  {
    if 'a' <= c <= 'z' then (c as int - 32) as char else c
  }

  function Upper(s: string): (u: string)
    ensures |u| == |s|
    ensures forall i :: 0 <= i < |s| ==> u[i] == UpperChar(s[i])
  {
    seq(|s|, i requires 0 <= i < |s| => UpperChar(s[i]))
  }

  /** string.Equals(a, b, StringComparison.OrdinalIgnoreCase), folding ASCII letters. */
  predicate EqualsIgnoreCase(a: string, b: string) {
    Upper(a) == Upper(b)
  }

  /** Two strings that differ only in the case of ASCII letters compare equal,
      and strings of different lengths never do. */
  lemma EqualsIgnoreCaseCharwise(a: string, b: string)
    ensures EqualsIgnoreCase(a, b) <==>
      (|a| == |b| && forall i :: 0 <= i < |a| ==> UpperChar(a[i]) == UpperChar(b[i]))
  {
    if |a| == |b| && forall i :: 0 <= i < |a| ==> UpperChar(a[i]) == UpperChar(b[i]) {
      assert forall i :: 0 <= i < |a| ==> Upper(a)[i] == Upper(b)[i];
    }
  }

  /** char.IsWhiteSpace: the Unicode space separators, the line and paragraph
      separators and the control characters U+0009..U+000D and U+0085. */
  predicate IsWhiteSpace(c: char) {
    c == ' ' || ('\t' <= c <= '\r') || c == '\U{0085}' || c == '\U{00A0}' || c == '\U{1680}'
    || ('\U{2000}' <= c <= '\U{200A}') || c == '\U{2028}' || c == '\U{2029}' || c == '\U{202F}'
    || c == '\U{205F}' || c == '\U{3000}'
  }

  /** string.IsNullOrWhiteSpace for a non-null string. */
  predicate IsBlank(s: string) {
    forall i :: 0 <= i < |s| ==> IsWhiteSpace(s[i])
  }

  /** string.Join(sep, parts). */
  function Join(sep: string, parts: seq<string>): (r: string)
    ensures parts == [] ==> r == ""
    ensures |parts| == 1 ==> r == parts[0]
    decreases |parts|
  {
    if parts == [] then "" else if |parts| == 1 then parts[0] else parts[0] + sep + Join(sep, parts[1..])
  }

  /** Each part of a joined string occurs in it. */
  lemma {:induction false} JoinContainsParts(sep: string, parts: seq<string>, k: nat)
    requires k < |parts|
    ensures Contains(Join(sep, parts), parts[k])
    decreases |parts|
  {
    if |parts| == 1 {
      ContainsConcat([], parts[0], []);
      assert [] + parts[0] + [] == parts[0];
    } else if k == 0 {
      ContainsConcat([], parts[0], sep + Join(sep, parts[1..]));
      assert [] + parts[0] + (sep + Join(sep, parts[1..])) == Join(sep, parts);
    } else {
      JoinContainsParts(sep, parts[1..], k - 1);
      ContainsSuffix(parts[0] + sep, Join(sep, parts[1..]), parts[k]);
      assert (parts[0] + sep) + Join(sep, parts[1..]) == Join(sep, parts);
    }
  }

  /** Prefixing a string keeps every substring it contains. */
  lemma {:induction false} ContainsSuffix(a: string, s: string, t: string)
    requires Contains(s, t)
    ensures Contains(a + s, t)
    decreases |a|
  {
    if a != [] {
      assert (a + s)[1..] == a[1..] + s;
      ContainsSuffix(a[1..], s, t);
    } else {
      assert a + s == s;
    }
  }

  /** Appending to a string keeps every substring it contains. */
  lemma {:induction false} ContainsPrefix(s: string, b: string, t: string)
    requires Contains(s, t)
    ensures Contains(s + b, t)
    decreases |s|
  {
    if StartsWith(s, t) {
      assert (s + b)[..|t|] == s[..|t|];
    } else {
      assert (s + b)[1..] == s[1..] + b;
      ContainsPrefix(s[1..], b, t);
    }
  }

  /** A substring of a substring is a substring. */
  lemma {:induction false} ContainsTransitive(s: string, t: string, u: string)
    requires Contains(s, t) && Contains(t, u)
    ensures Contains(s, u)
    decreases |s|
  {
    if StartsWith(s, t) {
      ContainsPrefix(t, s[|t|..], u);
      assert t + s[|t|..] == s;
    } else {
      ContainsTransitive(s[1..], t, u);
    }
  }

  /** A string contains whatever occurs in it at some position. */
  lemma {:induction false} ContainsAt(s: string, t: string, i: nat)
    requires i + |t| <= |s| && s[i..i + |t|] == t
    ensures Contains(s, t)
    decreases i
  {
    if i == 0 {
      assert s[..|t|] == s[0..|t|];
    } else {
      assert s[1..][i - 1..i - 1 + |t|] == s[i..i + |t|];
      ContainsAt(s[1..], t, i - 1);
    }
  }

  /** A string cannot contain a text holding a character it lacks. */
  lemma {:induction false} AbsentCharNotContained(s: string, t: string, c: char)
    requires c in t && c !in s
    ensures !Contains(s, t)
    decreases |s|
  {
    if |s| > 0 {
      AbsentCharNotContained(s[1..], t, c);
    }
  }
}
