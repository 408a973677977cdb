/** String helpers used by the generators: prefixes, `Array.prototype.join`, decimal rendering. */
module Text {

  predicate StartsWith(s: string, prefix: string) {
    |prefix| <= |s| && s[..|prefix|] == prefix
  }

  predicate EndsWith(s: string, suffix: string) {
    |suffix| <= |s| && s[|s| - |suffix|..] == suffix
  }

  lemma EndsWithAppend(a: string, b: string)
    ensures EndsWith(a + b, b)
  {
    assert (a + b)[|a + b| - |b|..] == b;
  }

  lemma StartsWithAppend(a: string, b: string)
    ensures StartsWith(a + b, a)
  {
    assert (a + b)[..|a|] == a;
  }

  /** `parts.join(sep)`. */
  function Separated(parts: seq<string>, sep: string): string
  {
    if parts == [] then ""
    else if |parts| == 1 then parts[0]
    else Separated(parts[..|parts| - 1], sep) + sep + parts[|parts| - 1]
  }

  /** `parts.map(f)`. */
  function MapStrings(f: string -> string, parts: seq<string>): (r: seq<string>)
    ensures |r| == |parts|
    ensures forall i :: 0 <= i < |parts| ==> r[i] == f(parts[i])
  {
    seq(|parts|, i requires 0 <= i < |parts| => f(parts[i]))
  }

  lemma {:induction false} SeparatedAppend(a: seq<string>, b: seq<string>, sep: string)
    requires a != [] && b != []
    ensures Separated(a + b, sep) == Separated(a, sep) + sep + Separated(b, sep)
    decreases |b|
  {
    var n := |b| - 1;
    assert (a + b)[..|a + b| - 1] == a + b[..n];
    assert (a + b)[|a + b| - 1] == b[n];
    if n > 0 {
      SeparatedAppend(a, b[..n], sep);
    } else {
      assert a + b[..n] == a;
    }
  }

  lemma MapStringsAppend(f: string -> string, a: seq<string>, b: seq<string>)
    ensures MapStrings(f, a + b) == MapStrings(f, a) + MapStrings(f, b)
  {
  }

  function DigitChar(d: nat): (c: char)
    requires d < 10
    ensures '0' <= c <= '9'
  {
    "0123456789"[d]
  }

  lemma DigitCharInjective(a: nat, b: nat)
    requires a < 10 && b < 10 && DigitChar(a) == DigitChar(b)
    ensures a == b
  {
  }

  /** `String(n)` for a non-negative integer: its decimal digits, most significant first. */
  function NatToString(n: nat): (r: string)
    ensures |r| >= 1
    ensures forall i :: 0 <= i < |r| ==> '0' <= r[i] <= '9'
    ensures n >= 10 ==> |r| >= 2
    decreases n
  {
    if n < 10 then [DigitChar(n)] else NatToString(n / 10) + [DigitChar(n % 10)]
  }

  /** Distinct numbers have distinct decimal renderings. */
  lemma {:induction false} NatToStringInjective(a: nat, b: nat)
    requires NatToString(a) == NatToString(b)
    ensures a == b
    decreases a
  {
    if a < 10 && b < 10 {
      DigitCharInjective(a, b);
    } else if a >= 10 && b >= 10 {
      var sa, sb := NatToString(a), NatToString(b);
      assert sa[|sa| - 1] == DigitChar(a % 10);
      assert sb[|sb| - 1] == DigitChar(b % 10);
      DigitCharInjective(a % 10, b % 10);
      assert sa[..|sa| - 1] == NatToString(a / 10);
      assert sb[..|sb| - 1] == NatToString(b / 10);
      NatToStringInjective(a / 10, b / 10);
    }
  }

  lemma NatToStringInjectiveAll()
    ensures forall a: nat, b: nat :: NatToString(a) == NatToString(b) ==> a == b
  {
    forall a: nat, b: nat | NatToString(a) == NatToString(b) ensures a == b {
      NatToStringInjective(a, b);
    }
  }
}
