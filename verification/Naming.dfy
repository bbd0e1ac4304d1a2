/** The text keys of the Go code, and why the model may compare their parts instead.

    Every map in the program is indexed by rendered text: "address:port" in the DNS registry and
    the health manager, "service:address:port" in the backend registry.  The other modules index
    by the tuple of the parts.  The lemmas here say exactly when that is the same thing. */
module Naming {

  function Digit(d: nat): char
    requires d < 10
  {
    ('0' as int + d) as char
  }

  /** `%d` of a non-negative integer. */
  function Decimal(n: nat): (text: string)
    ensures text != []
  {
    if n < 10 then [Digit(n)] else Decimal(n / 10) + [Digit(n % 10)]
  }

  /** `%d` of any integer. */
  function Itoa(n: int): string {
    if n < 0 then "-" + Decimal(-n) else Decimal(n)
  }

  /** The key of `serverKey` and of the DNS registry: "address:port". */
  function HostPort(address: string, port: int): string {
    address + ":" + Itoa(port)
  }

  /** The key of `backendKey`: "service:address:port". */
  function BackendKey(service: string, address: string, port: int): string {
    service + ":" + HostPort(address, port)
  }

  /** normalizeDomain: one trailing dot, except on the empty name. */
  function NormalizeDomain(name: string): string {
    if |name| == 0 || name[|name| - 1] == '.' then name else name + "."
  }

  /** Two names are one domain if they differ by a trailing dot at most. */
  lemma NormalizedAlike(a: string, b: string)
    ensures NormalizeDomain(a) == NormalizeDomain(b) <==> a == b || Dotted(a, b) || Dotted(b, a)
  {
    var x, y := NormalizeDomain(a), NormalizeDomain(b);
    if x == y && |a| == |b| && x != a {
      assert a == x[..|a|] && b == y[..|a|];
    }
  }

  predicate Dotted(a: string, b: string) {
    a != [] && a[|a| - 1] != '.' && b == a + "."
  }

  /** The number a text of digits stands for. */
  function ValueOf(digits: string): int {
    if digits == [] then 0
    else ValueOf(digits[..|digits| - 1]) * 10 + (digits[|digits| - 1] as int - '0' as int)
  }

  lemma {:induction false} DecimalReadsBack(n: nat)
    ensures ValueOf(Decimal(n)) == n && (Decimal(n)[0] == '0' ==> n == 0)
  {
    var text := Decimal(n);
    if n >= 10 {
      DecimalReadsBack(n / 10);
      assert text[..|text| - 1] == Decimal(n / 10);
    } else {
      assert text[..0] == [];
    }
  }

  lemma {:induction false} DecimalHasOnlyDigits(n: nat)
    ensures forall c :: c in Decimal(n) ==> '0' <= c <= '9'
  {
    if n >= 10 {
      DecimalHasOnlyDigits(n / 10);
    }
  }

  lemma {:induction false} DecimalInjective(m: nat, n: nat)
    requires Decimal(m) == Decimal(n)
    ensures m == n
  {
    var s, t := Decimal(m), Decimal(n);
    assert s[|s| - 1] == Digit(m % 10) && t[|t| - 1] == Digit(n % 10);
    if m >= 10 && n >= 10 {
      assert s[..|s| - 1] == Decimal(m / 10) && t[..|t| - 1] == Decimal(n / 10);
      DecimalInjective(m / 10, n / 10);
    }
  }

  lemma ItoaHasNoColon(n: int)
    ensures ':' !in Itoa(n)
  {
    DecimalHasOnlyDigits(if n < 0 then -n else n);
  }

  lemma ItoaInjective(m: int, n: int)
    requires Itoa(m) == Itoa(n)
    ensures m == n
  {
    var a, b := if m < 0 then -m else m, if n < 0 then -n else n;
    DecimalHasOnlyDigits(a);
    DecimalHasOnlyDigits(b);
    assert Decimal(a)[0] in Decimal(a) && Decimal(b)[0] in Decimal(b);
    if m < 0 && n < 0 {
      assert Itoa(m)[1..] == Decimal(a) && Itoa(n)[1..] == Decimal(b);
    }
    DecimalInjective(a, b);
  }

  /** Two texts that split at a ':' followed by colon-free text split at the same place. */
  lemma LastColonSplits(a: string, t: string, b: string, u: string)
    requires a + ":" + t == b + ":" + u
    requires ':' !in t && ':' !in u
    ensures a == b && t == u
  {
    var s := a + ":" + t;
    assert s[|a|] == ':' && s[|b|] == ':';
    assert |a| == |b|;
    assert a == s[..|a|] && b == s[..|b|];
    assert t == s[|a| + 1..] && u == s[|b| + 1..];
  }

  /** "address:port" identifies the pair, whatever the address is, IPv6 included. */
  lemma HostPortInjective(a: string, p: int, b: string, q: int)
    requires HostPort(a, p) == HostPort(b, q)
    ensures a == b && p == q
  {
    ItoaHasNoColon(p);
    ItoaHasNoColon(q);
    LastColonSplits(a, Itoa(p), b, Itoa(q));
    ItoaInjective(p, q);
  }

  /** "service:address:port" identifies the triple for services without a colon ... */
  lemma BackendKeyInjective(s: string, a: string, p: int, t: string, b: string, q: int)
    requires ':' !in s && ':' !in t
    requires BackendKey(s, a, p) == BackendKey(t, b, q)
    ensures s == t && a == b && p == q
  {
    var k := BackendKey(s, a, p);
    assert k[|s|] == ':' && k[|t|] == ':';
    assert |s| == |t|;
    assert s == k[..|s|] && t == k[..|t|];
    assert HostPort(a, p) == k[|s| + 1..] && HostPort(b, q) == k[|t| + 1..];
    HostPortInjective(a, p, b, q);
  }

  /** ... and for no other service: any colon makes a second triple with the same key. */
  lemma ColonInServiceCollides(s: string, i: nat, a: string, p: int)
    requires i < |s| && s[i] == ':'
    ensures s[..i] != s
    ensures BackendKey(s[..i], s[i + 1..] + ":" + a, p) == BackendKey(s, a, p)
  {
    var head, tail, rest := s[..i], s[i + 1..], ":" + (a + (":" + Itoa(p)));
    assert s == head + (":" + tail);
    Joined(head, ":" + tail, rest);
    Joined(":", tail, rest);
    Joined(":", a, ":" + Itoa(p));
    assert HostPort(tail + ":" + a, p) == tail + rest;
    assert HostPort(a, p) == a + (":" + Itoa(p));
    assert BackendKey(s, a, p) == s + rest;
    assert BackendKey(head, tail + ":" + a, p) == head + (":" + (tail + rest));
  }

  lemma Joined(a: string, b: string, c: string)
    ensures (a + b) + c == a + (b + c)
  {
  }
}
