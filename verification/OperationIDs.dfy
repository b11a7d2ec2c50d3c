/** Operation ids: generation, operation, claim and a per-coordinator sequence number joined by colons. */
module OperationIDs {

  function Digit(n: nat): char
    requires n < 10
  {
    ('0' as int + n) as char
  }

  /** Decimal text of a number, without leading zeros. */
  function Decimal(n: nat): (s: string)
    ensures s != []
    ensures forall i :: 0 <= i < |s| ==> '0' <= s[i] <= '9'
  {
    if n < 10 then [Digit(n)] else Decimal(n / 10) + [Digit(n % 10)]
  }

  function ValueOf(s: string): nat
    requires forall i :: 0 <= i < |s| ==> '0' <= s[i] <= '9'
  {
    if s == [] then 0 else 10 * ValueOf(s[..|s| - 1]) + (s[|s| - 1] as int - '0' as int)
  }

  lemma {:induction false} DecimalRoundTrip(n: nat)
    ensures ValueOf(Decimal(n)) == n
  {
    if n < 10 {
      assert Decimal(n)[..0] == [];
    } else {
      DecimalRoundTrip(n / 10);
      assert Decimal(n)[..|Decimal(n)| - 1] == Decimal(n / 10);
    }
  }

  function OperationID(gen: string, kind: string, claim: string, n: nat): string {
    gen + ":" + kind + ":" + claim + ":" + Decimal(n)
  }

  /** Two texts that end in a colon and digits are equal only if the digits are. */
  lemma LastNumberIsFixed(a: string, d: string, b: string, e: string)
    requires a + [':'] + d == b + [':'] + e
    requires forall i :: 0 <= i < |d| ==> d[i] != ':'
    requires forall i :: 0 <= i < |e| ==> e[i] != ':'
    ensures d == e
  {
    var s := a + [':'] + d;
    assert s[|a|] == ':';
    assert s == b + [':'] + e && s[|b|] == ':';
    assert forall i :: |a| < i < |s| ==> s[i] == d[i - |a| - 1];
    assert forall i :: |b| < i < |s| ==> s[i] == e[i - |b| - 1];
    assert |a| == |b|;
    assert s[|a| + 1..] == d && s[|a| + 1..] == e;
  }

  /** Ids with different sequence numbers differ, whatever the generation, operation and claim are called. */
  lemma OperationIDsDiffer(
      gen: string, kind: string, claim: string, n: nat, gen': string, kind': string, claim': string, n': nat)
    requires n != n'
    ensures OperationID(gen, kind, claim, n) != OperationID(gen', kind', claim', n')
  {
    if OperationID(gen, kind, claim, n) == OperationID(gen', kind', claim', n') {
      LastNumberIsFixed(gen + ":" + kind + ":" + claim, Decimal(n), gen' + ":" + kind' + ":" + claim', Decimal(n'));
      DecimalRoundTrip(n);
      DecimalRoundTrip(n');
    }
  }
}
