/** Decimal rendering of batch ordinals, as `usize::to_string` produces
    them, together with its inverse; the inverse gives injectivity, which is
    what keeps the ordinal ids of one batch distinct. */
module Decimal {

  function DigitChar(d: nat): (c: char)
    requires d < 10
    ensures '0' <= c <= '9'
  {
    ('0' as int + d) as char
  }

  predicate IsDigits(s: string) {
    forall k :: 0 <= k < |s| ==> '0' <= s[k] <= '9'
  }

  /** The decimal representation of `n`, without leading zeros. */
  function NatToString(n: nat): (s: string)
    ensures |s| >= 1 && IsDigits(s)
    ensures s[0] == '0' ==> n == 0
    ensures n == 0 ==> s == "0"
    decreases n
  {
    if n < 10 then [DigitChar(n)] else NatToString(n / 10) + [DigitChar(n % 10)]
  }

  /** Reads a string of decimal digits back as a number. */
  function ParseDecimal(s: string): nat
    requires IsDigits(s)
    decreases |s|
  {
    if |s| == 0 then 0
    else ParseDecimal(s[..|s| - 1]) * 10 + (s[|s| - 1] as int - '0' as int)
  }

  lemma {:induction false} ParseNatToString(n: nat)
    ensures ParseDecimal(NatToString(n)) == n
    decreases n
  {
    var s := NatToString(n);
    if n < 10 {
      assert s[..|s| - 1] == [];
    } else {
      assert s[..|s| - 1] == NatToString(n / 10);
      ParseNatToString(n / 10);
    }
  }

  lemma NatToStringInjective(a: nat, b: nat)
    ensures NatToString(a) == NatToString(b) ==> a == b
  {
    ParseNatToString(a);
    ParseNatToString(b);
  }

  /** The ids of the ordinals in `s`. */
  function IdsOf(s: set<nat>): set<string> {
    set i | i in s :: NatToString(i)
  }

  lemma IdsOfRemove(s: set<nat>, j: nat)
    requires j in s
    ensures IdsOf(s - {j}) == IdsOf(s) - {NatToString(j)}
  {
    forall i | i in s && i != j ensures NatToString(i) != NatToString(j) {
      NatToStringInjective(i, j);
    }
  }

  /** Distinct ordinals have distinct ids, so there are as many ids as ordinals. */
  lemma {:induction false} IdsOfCardinality(s: set<nat>)
    ensures |IdsOf(s)| == |s|
    decreases |s|
  {
    if s != {} {
      var j :| j in s;
      IdsOfRemove(s, j);
      IdsOfCardinality(s - {j});
      assert NatToString(j) in IdsOf(s);
      assert IdsOf(s) == IdsOf(s - {j}) + {NatToString(j)};
    } else {
      assert IdsOf(s) == {};
    }
  }
}
