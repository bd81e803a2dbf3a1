/** Prefix matching (server/src/rate-limit.ts): a group-by-group shifting loop,
  * proved to compare the leading bits of the two addresses read as one integer. */
module Cidr {
  import opened Options
  import opened Ipv6Text
  import opened Sums

  datatype Family = V4 | V6

  /** How wide the groups of a family are. */
  function GroupBits(v: Family): nat { if v == V4 then 8 else 16 }
  function GroupCount(v: Family): nat { if v == V4 then 4 else 8 }
  /** 32 or 128. */
  function FullBits(v: Family): nat { Bits(GroupCount(v), GroupBits(v)) }

  /** Four bytes, or eight groups of 16 bits. */
  lemma AddressBits()
    ensures GroupBits(V4) == 8 && GroupBits(V6) == 16
    ensures FullBits(V4) == 32 && FullBits(V6) == 128
  {
    assert Bits(4, 8) == 32;
    assert Bits(8, 16) == 64 + Bits(4, 16);
  }

  /** n groups of `width` bits. */
  function Bits(n: nat, width: nat): nat {
    if n == 0 then 0 else width + Bits(n - 1, width)
  }

  function Pow2(n: nat): (r: nat)
    ensures r >= 1
  {
    if n == 0 then 1 else 2 * Pow2(n - 1)
  }

  function Div(n: nat, d: nat): nat
    requires d > 0
  {
    n / d
  }

  datatype Address = Address(v: Family, parts: seq<nat>) {
    ghost predicate Valid() {
      |parts| == GroupCount(v) && InRange(parts, GroupBits(v))
    }
  }

  datatype Net = Net(v: Family, parts: seq<nat>, prefix: nat) {
    ghost predicate Valid() {
      |parts| == GroupCount(v) && InRange(parts, GroupBits(v)) && prefix <= FullBits(v)
    }
  }

  ghost predicate InRange(parts: seq<nat>, width: nat) {
    forall i | 0 <= i < |parts| :: parts[i] < Pow2(width)
  }

  /** The groups read as one integer, most significant first. */
  function Value(parts: seq<nat>, width: nat): nat {
    if parts == [] then 0 else parts[0] * Pow2(Bits(|parts| - 1, width)) + Value(parts[1..], width)
  }

  /** The integer without its last bits: the first `prefix` bits. */
  function Leading(a: seq<nat>, width: nat, prefix: nat): nat
    requires prefix <= Bits(|a|, width)
  {
    Div(Value(a, width), Pow2(Bits(|a|, width) - prefix))
  }

  /** Both addresses agree in their first `prefix` bits: the meaning of a prefix
    * length in section 3.1 of RFC 4632 and section 2.3 of RFC 4291. */
  predicate SamePrefix(a: seq<nat>, b: seq<nat>, width: nat, prefix: nat)
    requires |a| == |b| && prefix <= Bits(|a|, width)
  {
    Leading(a, width, prefix) == Leading(b, width, prefix)
  }

  // ---------- Powers and division ----------

  lemma {:induction false} Pow2Adds(m: nat, n: nat)
    ensures Pow2(m + n) == Pow2(m) * Pow2(n)
  {
    if m > 0 {
      Pow2Adds(m - 1, n);
      assert Pow2(m + n) == 2 * Pow2(m - 1 + n);
      TwiceProduct(Pow2(m - 1), Pow2(n));
    }
  }

  lemma TwiceProduct(x: nat, y: nat)
    ensures 2 * (x * y) == (2 * x) * y
  {
  }

  lemma MulMono(a: int, b: int, c: nat)
    ensures a <= b ==> a * c <= b * c
  {
    if a <= b {
      assert (b - a) * c >= 0;
      assert (b - a) * c == b * c - a * c;
    }
  }

  /** Quotient and remainder are unique. */
  lemma Quotient(n: nat, d: nat, q: nat, r: nat)
    requires d > 0 && n == q * d + r && r < d
    ensures n / d == q
  {
    var k, s := n / d, n % d;
    assert n == k * d + s;
    assert (k - q) * d == k * d - q * d;
    NoWrap(k - q, d);
  }

  /** (p*(k*d) + t) / d == p*k + t/d. */
  lemma DivideHigh(p: nat, k: nat, d: nat, t: nat)
    requires d > 0
    ensures Div(p * (k * d) + t, d) == p * k + Div(t, d)
  {
    var q, r := t / d, t % d;
    var pk := p * k;
    assert t == q * d + r;
    assert p * (k * d) == pk * d;
    assert pk * d + q * d == (pk + q) * d;
    Quotient(p * (k * d) + t, d, pk + q, r);
  }

  /** (p*b + t) / (b*c) == p / c when t is below b. */
  lemma DivideLow(p: nat, b: nat, c: nat, t: nat)
    requires b > 0 && c > 0 && t < b
    ensures b * c > 0 && (p * b + t) / (b * c) == p / c
  {
    var q, r := p / c, p % c;
    assert p == q * c + r && r <= c - 1;
    MulMono(r, c - 1, b);
    var rb, bc := r * b, b * c;
    assert (c - 1) * b == bc - b;
    assert (q * c) * b == q * bc;
    assert p * b == (q * c) * b + rb;
    assert bc > 0;
    Quotient(p * b + t, bc, q, rb + t);
  }

  lemma QuotientBelow(t: nat, d: nat, k: nat)
    requires d > 0 && t < k * d
    ensures Div(t, d) < k
  {
    var q := t / d;
    assert t == q * d + t % d;
    MulMono(k, q, d);
  }

  /** Numbers of two digits in base k agree when both digits do. */
  lemma TwoDigits(p: nat, s: nat, q: nat, t: nat, k: nat)
    requires s < k && t < k
    ensures p * k + s == q * k + t <==> p == q && s == t
  {
    if p * k + s == q * k + t {
      assert (p - q) * k == p * k - q * k;
      NoWrap(p - q, k);
    }
  }

  lemma DigitBelow(p: nat, t: nat, x: nat, y: nat)
    requires p < y && t < x
    ensures p * x + t < y * x
  {
    MulMono(p, y - 1, x);
    assert (y - 1) * x == y * x - x;
  }

  lemma {:induction false} ValueBelow(parts: seq<nat>, width: nat)
    requires InRange(parts, width)
    ensures Value(parts, width) < Pow2(Bits(|parts|, width))
  {
    if parts != [] {
      ValueBelow(parts[1..], width);
      var m := Bits(|parts| - 1, width);
      Pow2Adds(width, m);
      DigitBelow(parts[0], Value(parts[1..], width), Pow2(m), Pow2(width));
    }
  }

  // ---------- One group at a time ----------

  /** A whole leading group stands apart in the quotient. */
  lemma WholeGroupQuotient(a: seq<nat>, width: nat, prefix: nat)
    requires a != [] && InRange(a, width) && width <= prefix <= Bits(|a|, width)
    ensures Leading(a, width, prefix) == a[0] * Pow2(prefix - width) + Leading(a[1..], width, prefix - width)
    ensures Leading(a[1..], width, prefix - width) < Pow2(prefix - width)
  {
    var low := Bits(|a|, width) - prefix;
    var d, k, t := Pow2(low), Pow2(prefix - width), Value(a[1..], width);
    Pow2Adds(prefix - width, low);
    ValueBelow(a[1..], width);
    assert Value(a, width) == a[0] * (k * d) + t && t < k * d;
    hide Div;
    DivideHigh(a[0], k, d, t);
    QuotientBelow(t, d, k);
  }

  lemma WholeGroup(a: seq<nat>, b: seq<nat>, width: nat, prefix: nat)
    requires |a| == |b| > 0 && InRange(a, width) && InRange(b, width)
    requires width <= prefix <= Bits(|a|, width)
    ensures SamePrefix(a, b, width, prefix) <==> a[0] == b[0] && SamePrefix(a[1..], b[1..], width, prefix - width)
  {
    WholeGroupQuotient(a, width, prefix);
    WholeGroupQuotient(b, width, prefix);
    SameDigits(Leading(a, width, prefix), Leading(b, width, prefix), a[0], b[0],
               Leading(a[1..], width, prefix - width), Leading(b[1..], width, prefix - width), Pow2(prefix - width));
  }

  lemma SameDigits(x: nat, y: nat, p: nat, q: nat, s: nat, t: nat, k: nat)
    requires x == p * k + s && s < k && y == q * k + t && t < k
    ensures x == y <==> p == q && s == t
  {
    TwoDigits(p, s, q, t, k);
  }

  /** A partial group compares after a shift, and nothing below it matters. */
  lemma PartGroupQuotient(a: seq<nat>, width: nat, prefix: nat)
    requires a != [] && InRange(a, width) && prefix < width
    ensures Leading(a, width, prefix) == Shifted(a[0], width - prefix)
  {
    var m := Bits(|a| - 1, width);
    Pow2Adds(m, width - prefix);
    ValueBelow(a[1..], width);
    DivideLow(a[0], Pow2(m), Pow2(width - prefix), Value(a[1..], width));
  }

  lemma EmptyPrefix(a: seq<nat>, width: nat)
    requires InRange(a, width)
    ensures Leading(a, width, 0) == 0
  {
    ValueBelow(a, width);
    Quotient(Value(a, width), Pow2(Bits(|a|, width)), 0, Value(a, width));
  }

  // ---------- The matcher ----------

  /** A group shifted right. */
  function Shifted(x: nat, shift: nat): nat { Div(x, Pow2(shift)) }

  function Shift(width: nat, remaining: nat): nat {
    width - (if width <= remaining then width else remaining)
  }

  /** Group by group, each compared after the shift its share of the prefix leaves. */
  predicate Matches(a: seq<nat>, b: seq<nat>, width: nat, remaining: int)
    requires |a| == |b|
    decreases |a|
  {
    remaining <= 0 || a == [] ||
    (Shifted(a[0], Shift(width, remaining)) == Shifted(b[0], Shift(width, remaining)) &&
     Matches(a[1..], b[1..], width, remaining - width))
  }

  lemma ShiftByNothing(x: nat)
    ensures Shifted(x, 0) == x
  {
  }

  /** Comparing group by group is comparing integers after division. */
  lemma {:induction false} MatchesIsSamePrefix(a: seq<nat>, b: seq<nat>, width: nat, prefix: nat)
    requires |a| == |b| && InRange(a, width) && InRange(b, width) && prefix <= Bits(|a|, width)
    ensures Matches(a, b, width, prefix) <==> SamePrefix(a, b, width, prefix)
  {
    if prefix == 0 {
      EmptyPrefix(a, width);
      EmptyPrefix(b, width);
    } else if prefix >= width {
      WholeGroup(a, b, width, prefix);
      ShiftByNothing(a[0]);
      ShiftByNothing(b[0]);
      MatchesIsSamePrefix(a[1..], b[1..], width, prefix - width);
    } else {
      PartGroupQuotient(a, width, prefix);
      PartGroupQuotient(b, width, prefix);
    }
  }

  /** One group compared and the rest. */
  lemma MatchesStep(a: seq<nat>, b: seq<nat>, width: nat, remaining: nat, i: nat)
    requires |a| == |b| && i < |a| && remaining > 0
    ensures Matches(a[i..], b[i..], width, remaining) <==>
              Shifted(a[i], Shift(width, remaining)) == Shifted(b[i], Shift(width, remaining)) &&
              Matches(a[i + 1..], b[i + 1..], width, remaining - width)
  {
    assert a[i..][1..] == a[i + 1..] && b[i..][1..] == b[i + 1..];
  }

  lemma MatchStarts(a: Address, net: Net)
    requires a.Valid() && net.Valid() && a.v == net.v
    ensures |a.parts| == |net.parts| && 0 < GroupBits(net.v) && net.prefix <= Bits(|a.parts|, GroupBits(net.v))
    ensures Matches(a.parts, net.parts, GroupBits(net.v), net.prefix) <==>
              SamePrefix(a.parts, net.parts, GroupBits(net.v), net.prefix)
  {
    MatchesIsSamePrefix(a.parts, net.parts, GroupBits(net.v), net.prefix);
  }

  /** `ip` is the address the text was split into, if it was one. */
  method IpInNet(ip: Option<Address>, net: Net) returns (r: bool)
    requires net.Valid() && (ip.Some? ==> ip.value.Valid())
    ensures r <==> ip.Some? && ip.value.v == net.v &&
                   SamePrefix(ip.value.parts, net.parts, GroupBits(net.v), net.prefix)
  {
    hide Shifted, Shift, SamePrefix, InRange, Address.Valid, Net.Valid, GroupBits, GroupCount, FullBits;
    if ip.None? || ip.value.v != net.v { return false; }
    var a := ip.value;
    var width := GroupBits(net.v);
    var remaining: int := net.prefix;
    MatchStarts(a, net);
    var i := 0;
    assert a.parts[0..] == a.parts && net.parts[0..] == net.parts;
    while remaining > 0
      invariant 0 <= i <= |a.parts|
      invariant remaining <= Bits(|a.parts| - i, width)
      invariant Matches(a.parts, net.parts, width, net.prefix) <==>
              Matches(a.parts[i..], net.parts[i..], width, remaining)
      decreases remaining
    {
      var shift := Shift(width, remaining);
      MatchesStep(a.parts, net.parts, width, remaining, i);
      if Shifted(a.parts[i], shift) != Shifted(net.parts[i], shift) { return false; }
      remaining := remaining - width;
      i := i + 1;
    }
    return true;
  }

  // ---------- Networks as written ----------

  /** What stands after the slash: nothing, something that is no integer, or an
    * integer. */
  datatype Length = NoSlash | NotAnInteger | Number(n: int)

  predicate InLength(v: Family, len: Length) { len.Number? && 0 <= len.n <= if v == V4 then 32 else 128 }

  /** The network an entry names, its address and what follows the slash given apart. */
  function ParseCidr(addr: Option<Address>, len: Length): (r: Option<Net>)
    requires addr.Some? ==> addr.value.Valid()
    ensures r.Some? ==> r.value.Valid()
    ensures r.Some? <==> addr.Some? && (len.NoSlash? || InLength(addr.value.v, len))
    ensures r.Some? ==> Address(r.value.v, r.value.parts) == addr.value
    ensures r.Some? ==> r.value.prefix == if len.Number? then len.n else if addr.value.v == V4 then 32 else 128
  {
    if addr.None? then None
    else
      var a := addr.value;
      match len
      case NoSlash => Some(Net(a.v, a.parts, FullBits(a.v)))
      case NotAnInteger => None
      case Number(n) => if n < 0 || n > FullBits(a.v) then None else Some(Net(a.v, a.parts, n))
  }

  /** The groups of an address recognised as one of a family. */
  function AddressGroups(family: IpFamily, text: string): (r: Option<Address>)
    ensures r.Some? ==> r.value.Valid()
  {
    GroupSizes();
    match family
    case NotAnIp => None
    case IPv4 =>
      var o := ParseOctets(Split(text, '.'));
      OctetsAreBytes(Split(text, '.'));
      if o.Some? && |o.value| == 4 then Some(Address(V4, o.value)) else None
    case IPv6 =>
      var h := ExpandV6(text);
      ExpandsToHextets(text);
      assert h.Some? ==> forall i | 0 <= i < |h.value| :: h.value[i] in h.value;
      if h.Some? then Some(Address(V6, h.value)) else None
  }

  lemma {:induction false} OctetsAreBytes(texts: seq<string>)
    ensures ParseOctets(texts).Some? ==> forall i | 0 <= i < |ParseOctets(texts).value| ::
            ParseOctets(texts).value[i] < 256
  {
    if texts != [] { OctetsAreBytes(texts[1..]); }
  }

  /** Any text of an address reads back as its groups: four decimal bytes with dots
    * between, or a text of section 2.2 of RFC 4291. */
  lemma AddressReadsBack(text: string, q: seq<string>, parts: seq<nat>)
    ensures |q| == 4 && |parts| == 4 && text == Quad(q) && (forall i | 0 <= i < 4 :: SpellsByte(q[i], parts[i])) ==>
              AddressGroups(IPv4, text) == Some(Address(V4, parts))
    ensures PrintsAs(text, parts) ==> AddressGroups(IPv6, text) == Some(Address(V6, parts))
  {
    if |q| == 4 && |parts| == 4 && text == Quad(q) && forall i | 0 <= i < 4 :: SpellsByte(q[i], parts[i]) {
      QuadParses(q, parts);
    }
    if PrintsAs(text, parts) { ParserInvertsPrinter(text, parts); }
  }

  lemma GroupSizes()
    ensures Pow2(8) == 256 && Pow2(16) == 65536
  {
    assert Pow2(4) == 16;
    Pow2Adds(4, 4);
    Pow2Adds(8, 8);
  }

  lemma {:induction false} ValueInjective(a: seq<nat>, b: seq<nat>, width: nat)
    requires |a| == |b| && InRange(a, width) && InRange(b, width)
    requires Value(a, width) == Value(b, width)
    ensures a == b
  {
    if a != [] {
      ValueBelow(a[1..], width);
      ValueBelow(b[1..], width);
      TwoDigits(a[0], Value(a[1..], width), b[0], Value(b[1..], width), Pow2(Bits(|a| - 1, width)));
      ValueInjective(a[1..], b[1..], width);
      assert a == [a[0]] + a[1..] && b == [b[0]] + b[1..];
    }
  }

  /** An address written without a length matches itself and nothing else. */
  lemma BareAddressMatchesItself(a: Address, b: Address)
    requires a.Valid() && b.Valid() && a.v == b.v
    ensures var net := ParseCidr(Some(a), NoSlash).value;
            SamePrefix(b.parts, net.parts, if net.v == V4 then 8 else 16, net.prefix) <==> b == a
  {
    var w := GroupBits(a.v);
    assert Pow2(0) == 1;
    if Value(a.parts, w) == Value(b.parts, w) { ValueInjective(a.parts, b.parts, w); }
  }

  /** A longer prefix of the same network matches less. */
  lemma LongerPrefixIsNarrower(a: seq<nat>, b: seq<nat>, width: nat, short: nat, long: nat)
    requires |a| == |b| && short <= long <= Bits(|a|, width) && SamePrefix(a, b, width, long)
    ensures SamePrefix(a, b, width, short)
  {
    var n := Bits(|a|, width);
    Pow2Adds(n - long, long - short);
    DivideTwice(Value(a, width), Pow2(n - long), Pow2(long - short));
    DivideTwice(Value(b, width), Pow2(n - long), Pow2(long - short));
  }

  lemma DivideTwice(n: nat, d: nat, e: nat)
    requires d > 0 && e > 0
    ensures d * e > 0 && n / (d * e) == n / d / e
  {
    var q, r := n / d, n % d;
    assert n == q * d + r;
    DivideLow(q, d, e, r);
  }
}
