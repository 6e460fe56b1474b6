/** Conversation identifiers: `'conversation-' + Date.now()` (agent.js:118, agent.js:264). */
module ConversationIds {

  /** The decimal digit character for `d`. */
  function DigitChar(d: nat): (c: char)
    requires d < 10
    ensures '0' <= c <= '9'
  {
    "0123456789"[d]
  }

  /** The numeric value of a digit character. */
  function DigitValue(c: char): (d: nat)
    requires '0' <= c <= '9'
    ensures d < 10
  {
    (c as int - '0' as int) as nat
  }

  predicate AllDigits(s: string) {
    forall i :: 0 <= i < |s| ==> '0' <= s[i] <= '9'
  }

  /**
   * How JavaScript writes a non-negative integer when it is concatenated to a
   * string: its decimal digits, most significant first, with no leading zero.
   */
  function Decimal(n: nat): (r: string)
    ensures |r| >= 1 && AllDigits(r)
    ensures |r| > 1 ==> r[0] != '0'
    decreases n
  {
    if n < 10 then [DigitChar(n)] else Decimal(n / 10) + [DigitChar(n % 10)]
  }

  /** Reads a string of decimal digits back as a number. */
  function DecimalValue(s: string): nat
    requires AllDigits(s)
  {
    if s == [] then 0 else DecimalValue(s[..|s| - 1]) * 10 + DigitValue(s[|s| - 1])
  }

  /** Reading back what `Decimal` writes gives the number again. */
  lemma {:induction false} DecimalRoundTrip(n: nat)
    ensures DecimalValue(Decimal(n)) == n
    decreases n
  {
    var r := Decimal(n);
    if n < 10 {
      assert r[..|r| - 1] == [];
    } else {
      DecimalRoundTrip(n / 10);
      assert r[..|r| - 1] == Decimal(n / 10);
    }
  }

  /** Different numbers are written differently. */
  lemma DecimalInjective(m: nat, n: nat)
    requires m != n
    ensures Decimal(m) != Decimal(n)
  {
    DecimalRoundTrip(m);
    DecimalRoundTrip(n);
  }

  const Prefix: string := "conversation-"

  /** The id a new conversation gets at time `stamp` (milliseconds since the epoch). */
  function ConversationId(stamp: nat): (id: string)
    ensures |id| > |Prefix| && id[..|Prefix|] == Prefix
    ensures AllDigits(id[|Prefix|..])
    ensures id[|Prefix|..] == Decimal(stamp)
  {
    Prefix + Decimal(stamp)
  }

  /** Ids taken at different milliseconds never collide. */
  lemma ConversationIdInjective(s: nat, t: nat)
    requires s != t
    ensures ConversationId(s) != ConversationId(t)
  {
    DecimalInjective(s, t);
  }
}
