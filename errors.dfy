/** The error values the connectors return, and the text each one prints as. */
module Errors {

  /** A Kafka error code (`ErrorCode int16` in the broker's protocol types). */
  newtype Int16 = x: int | -0x8000 <= x < 0x8000

  datatype Error =
    /** `Lock`/`Unlock` on a connection that was never connected or was closed. */
    | ConnectionNotInitialized
    /** `Unlock` on a path for which this connection holds no lock handle. */
    | NotLocked
    /** `DeleteTopic`'s failure, built from the first topic-error entry of the reply. */
    | DeletionFailed(topic: string, code: Int16)
    /** An error value produced by a client library (go-zookeeper or the Kafka client);
        its content is opaque to the connectors, which return it unchanged. */
    | Library(message: string)

  /** The text `Error()` yields for each error value. */
  function Text(e: Error): (t: string)
    ensures e.ConnectionNotInitialized? ==> t == "connection not initialized"
    ensures e.NotLocked? ==> t == "not locked"
    ensures e.DeletionFailed? ==>
      exists digits :: t == "Deletion failed for Topic: " + e.topic + " with ErrorCode: " + digits
                    && WellFormedDecimal(digits) && ParseDecimal(digits) == e.code as int
    ensures e.Library? ==> t == e.message
  {
    match e
    case ConnectionNotInitialized => "connection not initialized"
    case NotLocked => "not locked"
    case DeletionFailed(topic, code) =>
      var digits := Decimal(code as int);
      DecimalRoundTrip(code as int);
      "Deletion failed for Topic: " + topic + " with ErrorCode: " + digits
    case Library(message) => message
  }

  /** A decimal digit character and its value. */
  function DigitChar(d: nat): (c: char)
    requires d < 10
    ensures '0' <= c <= '9' && DigitValue(c) == d
  {
    ['0', '1', '2', '3', '4', '5', '6', '7', '8', '9'][d]
  }

  function DigitValue(c: char): (d: nat)
  {
    if '0' <= c <= '9' then (c as int - '0' as int) as nat else 0
  }

  /** The digits of `n` in base ten, most significant first, without leading zeros. */
  function Digits(n: nat): (s: string)
    ensures |s| > 0
    ensures forall i :: 0 <= i < |s| ==> '0' <= s[i] <= '9'
    ensures |s| > 1 ==> s[0] != '0'
  {
    if n < 10 then [DigitChar(n)] else Digits(n / 10) + [DigitChar(n % 10)]
  }

  /** How `%d` prints an integer: a minus sign for negative values, then its digits. */
  function Decimal(n: int): (s: string)
    ensures |s| > 0 && (s[0] == '-' <==> n < 0)
    ensures forall i :: 0 < i < |s| ==> '0' <= s[i] <= '9'
    ensures n >= 0 ==> '0' <= s[0] <= '9'
    ensures WellFormedDecimal(s)
  {
    if n < 0 then "-" + Digits(-n) else Digits(n)
  }

  /** The shape `%d` prints: an optional minus sign, then one or more digits
      without a leading zero, and no "-0". */
  predicate WellFormedDecimal(s: string)
  {
    var digits := if |s| > 0 && s[0] == '-' then s[1..] else s;
    && |digits| > 0
    && (forall i | 0 <= i < |digits| :: '0' <= digits[i] <= '9')
    && (|digits| > 1 ==> digits[0] != '0')
    && (|s| > 0 && s[0] == '-' ==> digits != "0")
  }

  /** Reads a string of decimal digits back as a number. */
  function ParseDigits(s: string): (n: nat)
  {
    if s == [] then 0 else ParseDigits(s[..|s| - 1]) * 10 + DigitValue(s[|s| - 1])
  }

  /** Reads an optionally signed decimal number. */
  function ParseDecimal(s: string): (n: int)
  {
    if |s| > 0 && s[0] == '-' then -(ParseDigits(s[1..]) as int) else ParseDigits(s)
  }

  lemma {:induction false} DigitsRoundTrip(n: nat)
    ensures ParseDigits(Digits(n)) == n
  {
    if n >= 10 {
      var s := Digits(n);
      assert s[..|s| - 1] == Digits(n / 10);
      DigitsRoundTrip(n / 10);
    }
  }

  /** The number printed by `%d` can be read back from the text: nothing is lost. */
  lemma DecimalRoundTrip(n: int)
    ensures ParseDecimal(Decimal(n)) == n
  {
    if n < 0 {
      var digits := Digits(-n);
      var s := "-" + digits;
      assert s == Decimal(n);
      assert s[1..] == digits;
      DigitsRoundTrip(-n);
    } else {
      var s := Digits(n);
      assert s[0] != '-';
      DigitsRoundTrip(n);
    }
  }

  /** The two fixed messages differ from each other and from every deletion failure,
      so a caller comparing texts can tell them apart. */
  lemma LocalErrorTextsDistinct(topic: string, code: Int16)
    ensures Text(ConnectionNotInitialized) != Text(NotLocked)
    ensures Text(DeletionFailed(topic, code)) != Text(ConnectionNotInitialized)
    ensures Text(DeletionFailed(topic, code)) != Text(NotLocked)
  {
  }
}
