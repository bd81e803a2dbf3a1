/** IPv6 text and the bucket key made from it: expandV6 and bucketKeyForIp in
  * server/src/rate-limit.ts. The addresses have already been recognised as IPv6,
  * so only characters such an address can hold matter. */
module Ipv6Text {
  import opened Options

  // ---------- Text primitives ----------

  /** Splitting on a character. */
  function Split(s: string, c: char): (r: seq<string>)
    ensures |r| >= 1
  {
    if s == "" then [""]
    else if s[0] == c then [""] + Split(s[1..], c)
    else
      var r := Split(s[1..], c);
      [[s[0]] + r[0]] + r[1..]
  }

  /** Splitting on "::", leftmost first. */
  function SplitGap(s: string): (r: seq<string>)
    ensures |r| >= 1
  {
    if |s| < 2 then [s]
    else if s[0] == ':' && s[1] == ':' then [""] + SplitGap(s[2..])
    else
      var r := SplitGap(s[1..]);
      [[s[0]] + r[0]] + r[1..]
  }

  function Join(fs: seq<string>): string {
    if fs == [] then "" else if |fs| == 1 then fs[0] else fs[0] + ":" + Join(fs[1..])
  }

  /** One past the last colon, or 0. */
  function AfterLastColon(s: string): (n: nat)
    ensures n <= |s|
    ensures ':' !in s[n..]
    ensures n > 0 ==> s[n - 1] == ':'
  {
    if s == "" then 0
    else if s[|s| - 1] == ':' then |s|
    else
      var n := AfterLastColon(s[..|s| - 1]);
      assert s[n..] == s[..|s| - 1][n..] + [s[|s| - 1]];
      n
  }

  function HexDigit(c: char): Option<nat> {
    if '0' <= c <= '9' then Some(c as nat - '0' as nat)
    else if 'a' <= c <= 'f' then Some(c as nat - 'a' as nat + 10)
    else if 'A' <= c <= 'F' then Some(c as nat - 'A' as nat + 10)
    else None
  }

  function ParseHexFrom(p: string, acc: nat): nat {
    if p == "" || HexDigit(p[0]).None? then acc else ParseHexFrom(p[1..], acc * 16 + HexDigit(p[0]).value)
  }

  /** The leading hexadecimal digits' value; none when there are none. */
  function ParseHex(p: string): Option<nat> {
    if p == "" || HexDigit(p[0]).None? then None else Some(ParseHexFrom(p, 0))
  }

  function DecDigit(c: char): Option<nat> {
    if '0' <= c <= '9' then Some(c as nat - '0' as nat) else None
  }

  function ParseDecFrom(p: string, acc: nat): Option<nat> {
    if p == "" then Some(acc)
    else if DecDigit(p[0]).None? then None
    else ParseDecFrom(p[1..], acc * 10 + DecDigit(p[0]).value)
  }

  /** A decimal number. */
  function ParseDec(p: string): Option<nat> {
    if p == "" then None else ParseDecFrom(p, 0)
  }

  function ToHexDigit(n: nat): char
    requires n < 16
  {
    if n < 10 then '0' + n as char else 'a' + (n - 10) as char
  }

  function ToHex(n: nat): (r: string)
    ensures r != ""
  {
    if n < 16 then [ToHexDigit(n)] else ToHex(n / 16) + [ToHexDigit(n % 16)]
  }

  // ---------- The parser ----------

  function ParseOctets(texts: seq<string>): Option<seq<nat>> {
    if texts == [] then Some([])
    else
      var first, rest := ParseDec(texts[0]), ParseOctets(texts[1..]);
      if first.Some? && first.value <= 255 && rest.Some? then Some([first.value] + rest.value) else None
  }

  function ParseFields(texts: seq<string>): Option<seq<nat>> {
    if texts == [] then Some([])
    else
      var first, rest := ParseHex(texts[0]), ParseFields(texts[1..]);
      if first.Some? && first.value <= 0xffff && rest.Some? then Some([first.value] + rest.value) else None
  }

  /** A trailing dotted quad is two hextets. */
  function RewriteDotted(s: string): Option<string> {
    var cut := AfterLastColon(s);
    var dotted := s[cut..];
    if '.' !in dotted then Some(s)
    else
      var octets := ParseOctets(Split(dotted, '.'));
      if octets.None? || |octets.value| != 4 then None
      else
        var o := octets.value;
        Some(s[..cut] + ToHex(o[0] * 256 + o[1]) + ":" + ToHex(o[2] * 256 + o[3]))
  }

  function Zeros(n: nat): seq<string> { seq(n, _ => "0") }

  function Fields(half: string): seq<string> {
    if half != "" then Split(half, ':') else []
  }

  /** The fields on both sides of the gap, and zeros for the gap. */
  function Assemble(elided: bool, head: seq<string>, tail: seq<string>): Option<seq<nat>> {
    var fill := 8 - |head| - |tail|;
    if (if elided then fill < 0 else fill != 0) then None
    else ParseFields(head + Zeros(fill) + tail)
  }

  function ExpandPlain(s: string): Option<seq<nat>> {
    var halves := SplitGap(s);
    if |halves| > 2 then None
    else if |halves| == 2 then Assemble(true, Fields(halves[0]), Fields(halves[1]))
    else Assemble(false, Fields(halves[0]), [])
  }

  function ExpandV6(addr: string): Option<seq<nat>> {
    var s := RewriteDotted(addr);
    if s.None? then None else ExpandPlain(s.value)
  }

  /** The rate-limit key of an address already known to be IPv6. */
  function BucketKeyForV6(ip: string): string {
    var h := ExpandV6(ip);
    if h.None? then ip
    else
      ExpandsToHextets(ip);
      KeyOf(h.value[..4])
  }

  function KeyOf(h: seq<nat>): string { Join(Hexes(h)) + "::/64" }

  function Hexes(h: seq<nat>): (r: seq<string>)
    ensures |r| == |h| && forall i | 0 <= i < |h| :: r[i] == ToHex(h[i])
  {
    seq(|h|, i requires 0 <= i < |h| => ToHex(h[i]))
  }

  datatype IpFamily = NotAnIp | IPv4 | IPv6

  /** The family is what the address was recognised as. */
  function BucketKeyForIp(family: IpFamily, ip: string): string {
    if family != IPv6 then ip else BucketKeyForV6(ip)
  }

  // ---------- What a text spells ----------

  predicate AllHex(f: string) {
    forall i | 0 <= i < |f| :: HexDigit(f[i]).Some?
  }

  /** Positional value, most significant digit first. */
  function HexValue(f: string): nat
    requires AllHex(f)
  {
    if f == "" then 0 else HexValue(f[..|f| - 1]) * 16 + HexDigit(f[|f| - 1]).value
  }

  /** One to four hexadecimal digits of value h. */
  predicate Spells(f: string, h: nat) {
    1 <= |f| <= 4 && AllHex(f) && HexValue(f) == h
  }

  predicate AllDec(f: string) {
    forall i | 0 <= i < |f| :: DecDigit(f[i]).Some?
  }

  function DecValue(f: string): nat
    requires AllDec(f)
  {
    if f == "" then 0 else DecValue(f[..|f| - 1]) * 10 + DecDigit(f[|f| - 1]).value
  }

  /** A decimal byte. */
  predicate SpellsByte(f: string, b: nat) {
    f != "" && AllDec(f) && DecValue(f) == b <= 255
  }

  predicate SpellsAll(fs: seq<string>, h: seq<nat>) {
    |fs| == |h| && forall i | 0 <= i < |h| :: Spells(fs[i], h[i])
  }

  /** The text forms of section 2.2 of RFC 4291: all the fields, or the fields
    * outside one run of zeros written "::". */
  datatype Form = Full | Elided(lo: nat, hi: nat)

  predicate FormFits(form: Form, h: seq<nat>) {
    form.Full? || (form.lo < form.hi <= |h| && forall i | form.lo <= i < form.hi :: h[i] == 0)
  }

  function Text(form: Form, fs: seq<string>): string
    requires form.Elided? ==> form.lo <= form.hi <= |fs|
  {
    match form
    case Full => Join(fs)
    case Elided(lo, hi) => Join(fs[..lo]) + "::" + Join(fs[hi..])
  }

  /** `text` is an IPv6 text for the eight hextets h, in hexadecimal throughout. */
  ghost predicate HexText(text: string, h: seq<nat>) {
    |h| == 8 && exists form: Form, fs: seq<string> :: SpellsAll(fs, h) && FormFits(form, h) && text == Text(form, fs)
  }

  /** The same with the last two hextets as a dotted quad. */
  ghost predicate DottedText(text: string, h: seq<nat>) {
    |h| == 8 && exists form: Form, fs: seq<string>, q: seq<string>, b: seq<nat> ::
      DottedParts(form, fs, q, b, h) && text == Text(form, fs + [Quad(q)])
  }

  ghost predicate DottedParts(form: Form, fs: seq<string>, q: seq<string>, b: seq<nat>, h: seq<nat>) {
    && |h| == 8 && |q| == 4 && |b| == 4
    && SpellsAll(fs, h[..6]) && FormFits(form, h[..6])
    && (forall i | 0 <= i < 4 :: SpellsByte(q[i], b[i]))
    && h[6] == b[0] * 256 + b[1] && h[7] == b[2] * 256 + b[3]
  }

  function Quad(q: seq<string>): string
    requires |q| == 4
  {
    q[0] + "." + q[1] + "." + q[2] + "." + q[3]
  }

  // ---------- Splitting undoes joining ----------

  lemma {:induction false} SplitNone(f: string, c: char)
    requires c !in f
    ensures Split(f, c) == [f]
  {
    if f != "" {
      SplitNone(f[1..], c);
      assert [f[0]] + f[1..] == f;
    }
  }

  lemma {:induction false} SplitFirst(f: string, c: char, rest: string)
    requires c !in f
    ensures Split(f + [c] + rest, c) == [f] + Split(rest, c)
  {
    var s := f + [c] + rest;
    if f == "" {
      assert s[1..] == rest;
    } else {
      SplitFirst(f[1..], c, rest);
      assert s[1..] == f[1..] + [c] + rest;
      assert [f[0]] + f[1..] == f;
    }
  }

  /** A field as it appears between colons. */
  predicate Plain(f: string) { f != "" && ':' !in f && '.' !in f }

  predicate AllPlain(fs: seq<string>) { forall i | 0 <= i < |fs| :: Plain(fs[i]) }

  lemma {:induction false} SplitJoin(fs: seq<string>)
    requires fs != [] && AllPlain(fs)
    ensures Split(Join(fs), ':') == fs
  {
    assert Plain(fs[0]);
    if |fs| == 1 {
      SplitNone(fs[0], ':');
    } else {
      SplitJoin(fs[1..]);
      SplitFirst(fs[0], ':', Join(fs[1..]));
    }
  }

  /** Two colons in a row. */
  predicate GapAt(s: string, i: nat) { i + 1 < |s| && s[i] == ':' && s[i + 1] == ':' }

  ghost predicate NoGap(s: string) { forall i: nat :: !GapAt(s, i) }

  lemma {:induction false} SplitGapNone(s: string)
    requires NoGap(s)
    ensures SplitGap(s) == [s]
  {
    if |s| >= 2 {
      assert !GapAt(s, 0);
      forall i: nat ensures !GapAt(s[1..], i) { assert !GapAt(s, i + 1); }
      SplitGapNone(s[1..]);
      assert [s[0]] + s[1..] == s;
    }
  }

  lemma {:induction false} SplitGapOnce(a: string, b: string)
    requires NoGap(a) && (a != "" ==> a[|a| - 1] != ':')
    ensures SplitGap(a + "::" + b) == [a] + SplitGap(b)
  {
    var s := a + "::" + b;
    if a == "" {
      assert s[2..] == b;
    } else {
      assert s[1..] == a[1..] + "::" + b;
      assert !GapAt(a, 0);
      forall i: nat ensures !GapAt(a[1..], i) { assert !GapAt(a, i + 1); }
      SplitGapOnce(a[1..], b);
      assert [a[0]] + a[1..] == a;
      assert !(s[0] == ':' && s[1] == ':') by {
        if |a| > 1 { assert s[1] == a[1]; }
      }
    }
  }

  /** Joined fields hold no two colons in a row and neither start nor end with
    * one. */
  lemma NoGapConcat(f: string, rest: string)
    requires f != "" && ':' !in f && NoGap(rest) && rest != "" && rest[0] != ':'
    ensures NoGap(f + ":" + rest)
  {
    var s := f + ":" + rest;
    forall i: nat ensures !GapAt(s, i) {
      if i < |f| {
        assert s[i] == f[i] && f[i] in f;
      } else if i == |f| {
        assert s[i + 1] == rest[0];
      } else {
        assert !GapAt(rest, i - |f| - 1);
      }
    }
  }

  lemma NoGapField(f: string)
    requires ':' !in f
    ensures NoGap(f)
  {
    forall i: nat ensures !GapAt(f, i) {
      assert i < |f| ==> f[i] in f;
    }
  }

  /** Joined fields hold no two colons in a row and neither start nor end with
    * one. */
  lemma {:induction false} JoinShape(fs: seq<string>)
    requires AllPlain(fs)
    ensures NoGap(Join(fs)) && (fs == [] <==> Join(fs) == "")
    ensures fs != [] ==> Join(fs)[0] != ':' && Join(fs)[|Join(fs)| - 1] != ':'
    ensures '.' !in Join(fs)
  {
    if fs != [] {
      assert Plain(fs[0]);
      JoinShape(fs[1..]);
      NoGapField(fs[0]);
      if |fs| > 1 { NoGapConcat(fs[0], Join(fs[1..])); }
    }
  }

  // ---------- Numbers ----------

  lemma {:induction false} ParseHexFromIsValue(done: string, p: string)
    requires AllHex(done) && AllHex(p)
    ensures AllHex(done + p) && ParseHexFrom(p, HexValue(done)) == HexValue(done + p)
    decreases |p|
  {
    if p == "" {
      assert done + p == done;
    } else {
      var d := done + [p[0]];
      assert d[..|d| - 1] == done;
      ParseHexFromIsValue(d, p[1..]);
      assert d + p[1..] == done + p;
    }
  }

  lemma ParseHexSpelled(f: string, h: nat)
    requires Spells(f, h)
    ensures ParseHex(f) == Some(h) && h <= 0xffff
  {
    ParseHexFromIsValue("", f);
    assert "" + f == f;
    HexBound(f);
  }

  lemma {:induction false} HexBound(f: string)
    requires AllHex(f) && |f| <= 4
    ensures HexValue(f) < if |f| == 0 then 1 else if |f| == 1 then 16 else if |f| == 2 then 256
                          else if |f| == 3 then 4096 else 65536
  {
    if f != "" { HexBound(f[..|f| - 1]); }
  }

  lemma {:induction false} ToHexSpells(n: nat)
    ensures AllHex(ToHex(n)) && HexValue(ToHex(n)) == n
    ensures |ToHex(n)| == if n < 16 then 1 else 1 + |ToHex(n / 16)|
  {
    if n < 16 {
      assert ToHex(n)[..0] == "";
    } else {
      ToHexSpells(n / 16);
      var r := ToHex(n);
      assert r[..|r| - 1] == ToHex(n / 16);
    }
  }

  lemma ToHexHextet(n: nat)
    requires n <= 0xffff
    ensures Spells(ToHex(n), n)
  {
    ToHexSpells(n);
    ToHexSpells(n / 16);
    ToHexSpells(n / 256);
    ToHexSpells(n / 4096);
    assert n / 16 / 16 == n / 256 && n / 256 / 16 == n / 4096;
  }

  lemma SpelledIsPlain(f: string, h: nat)
    requires Spells(f, h)
    ensures Plain(f)
  {
    forall c | c in f ensures HexDigit(c).Some? {
      var i :| 0 <= i < |f| && f[i] == c;
    }
  }

  lemma {:induction false} ParseFieldsSpelled(fs: seq<string>, h: seq<nat>)
    requires SpellsAll(fs, h)
    ensures ParseFields(fs) == Some(h)
  {
    if fs != [] {
      ParseHexSpelled(fs[0], h[0]);
      ParseFieldsSpelled(fs[1..], h[1..]);
      assert h == [h[0]] + h[1..];
    }
  }

  lemma {:induction false} ParseFieldsShape(fs: seq<string>)
    ensures ParseFields(fs).Some? ==>
              |ParseFields(fs).value| == |fs| && forall v | v in ParseFields(fs).value :: v <= 0xffff
  {
    if fs != [] { ParseFieldsShape(fs[1..]); }
  }

  /** Whatever the text, an expansion is eight hextets. */
  lemma ExpandsToHextets(s: string)
    ensures ExpandV6(s).Some? ==> |ExpandV6(s).value| == 8 && forall v | v in ExpandV6(s).value :: v <= 0xffff
  {
    var r := RewriteDotted(s);
    if r.Some? {
      var halves := SplitGap(r.value);
      var head := Fields(halves[0]);
      var tail := if |halves| == 2 then Fields(halves[1]) else [];
      if |halves| <= 2 && 8 - |head| - |tail| >= 0 {
        ParseFieldsShape(head + Zeros(8 - |head| - |tail|) + tail);
      }
    }
  }

  // ---------- The parser inverts the printer ----------

  lemma AllSpelledPlain(fs: seq<string>, h: seq<nat>)
    requires SpellsAll(fs, h)
    ensures AllPlain(fs)
  {
    forall i | 0 <= i < |fs| ensures Plain(fs[i]) { SpelledIsPlain(fs[i], h[i]); }
  }

  lemma SpellsZero()
    ensures Spells("0", 0)
  {
    assert "0"[..0] == "";
  }

  /** Without dots, expanding is splitting and parsing. */
  lemma ExpandFull(fs: seq<string>, h: seq<nat>)
    requires |h| == 8 && SpellsAll(fs, h)
    ensures ExpandPlain(Join(fs)) == Some(h) && '.' !in Join(fs)
  {
    AllSpelledPlain(fs, h);
    JoinShape(fs);
    SplitGapNone(Join(fs));
    SplitJoin(fs);
    assert fs + Zeros(0) + [] == fs;
    ParseFieldsSpelled(fs, h);
  }

  lemma FieldsOfJoin(fs: seq<string>)
    requires AllPlain(fs)
    ensures Fields(Join(fs)) == fs
  {
    JoinShape(fs);
    if fs != [] { SplitJoin(fs); }
  }

  lemma ZerosSpelled(fs: seq<string>, h: seq<nat>, lo: nat, hi: nat)
    requires |h| == 8 && SpellsAll(fs, h) && FormFits(Elided(lo, hi), h)
    ensures SpellsAll(fs[..lo] + Zeros(hi - lo) + fs[hi..], h)
  {
    var all := fs[..lo] + Zeros(hi - lo) + fs[hi..];
    SpellsZero();
    forall i | 0 <= i < 8 ensures Spells(all[i], h[i]) {
      assert all[i] == if lo <= i < hi then "0" else fs[i];
    }
  }

  /** A gap between two lists of fields is read back as those lists. */
  lemma ExpandGap(head: seq<string>, tail: seq<string>)
    requires AllPlain(head) && AllPlain(tail)
    ensures ExpandPlain(Join(head) + "::" + Join(tail)) == Assemble(true, head, tail)
    ensures '.' !in Join(head) + "::" + Join(tail)
  {
    JoinShape(head);
    JoinShape(tail);
    SplitGapOnce(Join(head), Join(tail));
    SplitGapNone(Join(tail));
    FieldsOfJoin(head);
    FieldsOfJoin(tail);
  }

  lemma ExpandElided(fs: seq<string>, h: seq<nat>, lo: nat, hi: nat)
    requires |h| == 8 && SpellsAll(fs, h) && FormFits(Elided(lo, hi), h)
    ensures ExpandPlain(Join(fs[..lo]) + "::" + Join(fs[hi..])) == Some(h)
    ensures '.' !in Join(fs[..lo]) + "::" + Join(fs[hi..])
  {
    AllSpelledPlain(fs, h);
    ExpandGap(fs[..lo], fs[hi..]);
    ZerosSpelled(fs, h, lo, hi);
    ParseFieldsSpelled(fs[..lo] + Zeros(hi - lo) + fs[hi..], h);
  }

  lemma TextExpands(form: Form, fs: seq<string>, h: seq<nat>)
    requires |h| == 8 && SpellsAll(fs, h) && FormFits(form, h)
    ensures ExpandPlain(Text(form, fs)) == Some(h) && '.' !in Text(form, fs)
  {
    match form {
      case Full => ExpandFull(fs, h);
      case Elided(lo, hi) => ExpandElided(fs, h, lo, hi);
    }
  }

  // ---------- A trailing dotted quad ----------

  lemma {:induction false} JoinSnoc(fs: seq<string>, x: string)
    ensures Join(fs + [x]) == if fs == [] then x else Join(fs) + ":" + x
  {
    if fs != [] {
      assert (fs + [x])[1..] == fs[1..] + [x];
      JoinSnoc(fs[1..], x);
    }
  }

  /** Everything before the last field. */
  function Before(form: Form, fs: seq<string>): string
    requires form.Elided? ==> form.lo <= form.hi <= |fs|
  {
    match form
    case Full => if fs == [] then "" else Join(fs) + ":"
    case Elided(lo, hi) => if hi == |fs| then Join(fs[..lo]) + "::" else Join(fs[..lo]) + "::" + Join(fs[hi..]) + ":"
  }

  lemma TextSnoc(form: Form, fs: seq<string>, x: string)
    requires fs != [] && (form.Elided? ==> form.lo <= form.hi <= |fs|)
    ensures Text(form, fs + [x]) == Before(form, fs) + x
    ensures Before(form, fs) != "" && Before(form, fs)[|Before(form, fs)| - 1] == ':'
  {
    match form {
      case Full => JoinSnoc(fs, x);
      case Elided(lo, hi) =>
        assert (fs + [x])[..lo] == fs[..lo] && (fs + [x])[hi..] == fs[hi..] + [x];
        JoinSnoc(fs[hi..], x);
        assert Join(fs[..lo]) + "::" + (Join(fs[hi..]) + ":" + x) == Join(fs[..lo]) + "::" + Join(fs[hi..]) + ":" + x;
    }
  }

  lemma TextSnocTwo(form: Form, fs: seq<string>, x: string, y: string)
    requires fs != [] && (form.Elided? ==> form.lo <= form.hi <= |fs|)
    ensures Text(form, fs + [x] + [y]) == Before(form, fs) + x + ":" + y
  {
    TextSnoc(form, fs + [x], y);
    TextSnoc(form, fs, x);
    assert Before(form, fs + [x]) == Text(form, fs + [x]) + ":" by {
      if form.Elided? {
        assert (fs + [x])[..form.lo] == fs[..form.lo];
      }
    }
  }

  lemma LastColon(p: string, t: string)
    requires p != "" && p[|p| - 1] == ':' && ':' !in t
    ensures AfterLastColon(p + t) == |p|
  {
    var s := p + t;
    var n := AfterLastColon(s);
    assert s[|p| - 1] == ':';
    assert forall i | n <= i < |s| :: s[i] == s[n..][i - n];
    assert forall i | |p| <= i < |s| :: s[i] == t[i - |p|];
  }

  lemma {:induction false} ParseDecFromIsValue(done: string, p: string)
    requires AllDec(done) && AllDec(p)
    ensures AllDec(done + p) && ParseDecFrom(p, DecValue(done)) == Some(DecValue(done + p))
    decreases |p|
  {
    if p == "" {
      assert done + p == done;
    } else {
      var d := done + [p[0]];
      assert d[..|d| - 1] == done;
      ParseDecFromIsValue(d, p[1..]);
      assert d + p[1..] == done + p;
    }
  }

  lemma ByteParses(f: string, b: nat)
    requires SpellsByte(f, b)
    ensures ParseDec(f) == Some(b) && '.' !in f && ':' !in f
  {
    ParseDecFromIsValue("", f);
    assert "" + f == f;
    forall c | c in f ensures DecDigit(c).Some? {
      var i :| 0 <= i < |f| && f[i] == c;
    }
  }

  lemma QuadSplits(q: seq<string>)
    requires |q| == 4 && forall i | 0 <= i < 4 :: '.' !in q[i]
    ensures Split(Quad(q), '.') == q
  {
    var two := q[2] + "." + q[3];
    var three := q[1] + "." + two;
    QuadIs(q);
    hide Quad;
    SplitNone(q[3], '.');
    SplitFirst(q[2], '.', q[3]);
    SplitFirst(q[1], '.', two);
    SplitFirst(q[0], '.', three);
    assert q == [q[0]] + ([q[1]] + ([q[2]] + [q[3]]));
  }

  lemma QuadIs(q: seq<string>)
    requires |q| == 4
    ensures Quad(q) == q[0] + "." + (q[1] + "." + (q[2] + "." + q[3]))
  {
    var three := q[1] + "." + q[2];
    assert three + "." + q[3] == q[1] + "." + (q[2] + "." + q[3]);
    Reassociated(q[0] + ".", three, ".", q[3]);
  }

  lemma Reassociated(a: string, b: string, c: string, d: string)
    ensures a + b + c + d == a + (b + c + d)
  {
  }

  lemma {:induction false} OctetsParse(q: seq<string>, b: seq<nat>)
    requires |q| == |b| && forall i | 0 <= i < |q| :: SpellsByte(q[i], b[i])
    ensures ParseOctets(q) == Some(b)
  {
    if q != [] {
      ByteParses(q[0], b[0]);
      OctetsParse(q[1..], b[1..]);
      assert b == [b[0]] + b[1..];
    }
  }

  lemma QuadParses(q: seq<string>, b: seq<nat>)
    requires |q| == 4 && |b| == 4 && forall i | 0 <= i < 4 :: SpellsByte(q[i], b[i])
    ensures ParseOctets(Split(Quad(q), '.')) == Some(b)
    ensures ':' !in Quad(q) && '.' in Quad(q)
  {
    forall i | 0 <= i < 4 ensures '.' !in q[i] && ':' !in q[i] { ByteParses(q[i], b[i]); }
    QuadSplits(q);
    OctetsParse(q, b);
  }

  /** The rewrite turns a dotted text into the text of the same form with the
    * last two hextets in hexadecimal. */
  lemma DottedRewrites(form: Form, fs: seq<string>, q: seq<string>, b: seq<nat>, h: seq<nat>)
    requires DottedParts(form, fs, q, b, h)
    ensures RewriteDotted(Text(form, fs + [Quad(q)])) == Some(Text(form, fs + [ToHex(h[6])] + [ToHex(h[7])]))
  {
    var p := Before(form, fs);
    QuadParses(q, b);
    TextSnoc(form, fs, Quad(q));
    LastColon(p, Quad(q));
    TextSnocTwo(form, fs, ToHex(h[6]), ToHex(h[7]));
    var s := p + Quad(q);
    assert s[|p|..] == Quad(q) && s[..|p|] == p;
  }

  lemma DottedFieldsSpell(form: Form, fs: seq<string>, q: seq<string>, b: seq<nat>, h: seq<nat>)
    requires DottedParts(form, fs, q, b, h)
    ensures SpellsAll(fs + [ToHex(h[6])] + [ToHex(h[7])], h) && FormFits(form, h)
  {
    assert SpellsByte(q[0], b[0]) && SpellsByte(q[1], b[1]) && SpellsByte(q[2], b[2]) && SpellsByte(q[3], b[3]);
    ToHexHextet(h[6]);
    ToHexHextet(h[7]);
    var all := fs + [ToHex(h[6])] + [ToHex(h[7])];
    forall i | 0 <= i < 8 ensures Spells(all[i], h[i]) {
      if i < 6 { assert Spells(fs[i], h[..6][i]); }
    }
    if form.Elided? {
      forall i | form.lo <= i < form.hi ensures h[i] == 0 { assert h[..6][i] == 0; }
    }
  }

  /** Any text of section 2.2 of RFC 4291 for eight hextets. */
  ghost predicate PrintsAs(text: string, h: seq<nat>) {
    HexText(text, h) || DottedText(text, h)
  }

  /** The parser inverts the printer, however each field is spelled and whichever
    * one run of zeros is elided. */
  lemma ParserInvertsPrinter(text: string, h: seq<nat>)
    requires PrintsAs(text, h)
    ensures ExpandV6(text) == Some(h)
  {
    if HexText(text, h) {
      var form: Form, fs: seq<string> :| SpellsAll(fs, h) && FormFits(form, h) && text == Text(form, fs);
      TextExpands(form, fs, h);
      NoDotNoRewrite(text);
    } else {
      var form: Form, fs: seq<string>, q: seq<string>, b: seq<nat> :|
        DottedParts(form, fs, q, b, h) && text == Text(form, fs + [Quad(q)]);
      DottedRewrites(form, fs, q, b, h);
      DottedFieldsSpell(form, fs, q, b, h);
      TextExpands(form, fs + [ToHex(h[6])] + [ToHex(h[7])], h);
    }
  }

  lemma NoDotNoRewrite(s: string)
    requires '.' !in s
    ensures RewriteDotted(s) == Some(s)
  {
  }

  // ---------- Bucket keys ----------

  lemma HexesPlain(h: seq<nat>)
    ensures AllPlain(Hexes(h))
  {
    forall i | 0 <= i < |h| ensures Plain(Hexes(h)[i]) {
      ToHexSpells(h[i]);
      forall c | c in ToHex(h[i]) ensures HexDigit(c).Some? {
        var k :| 0 <= k < |ToHex(h[i])| && ToHex(h[i])[k] == c;
      }
    }
  }

  lemma KeyInjective(a: seq<nat>, b: seq<nat>)
    requires |a| == |b| && a != [] && KeyOf(a) == KeyOf(b)
    ensures a == b
  {
    assert Join(Hexes(a)) == KeyOf(a)[..|KeyOf(a)| - 5] && Join(Hexes(b)) == KeyOf(b)[..|KeyOf(b)| - 5];
    HexesPlain(a);
    HexesPlain(b);
    SplitJoin(Hexes(a));
    SplitJoin(Hexes(b));
    forall i | 0 <= i < |a| ensures a[i] == b[i] {
      assert Hexes(a)[i] == Hexes(b)[i];
      ToHexSpells(a[i]);
      ToHexSpells(b[i]);
    }
  }

  /** One bucket per /64: two IPv6 texts, however spelled, share a key exactly
    * when their first four hextets agree. */
  lemma SameKeyIffSameSlash64(t1: string, h1: seq<nat>, t2: string, h2: seq<nat>)
    requires PrintsAs(t1, h1) && PrintsAs(t2, h2)
    ensures BucketKeyForIp(IPv6, t1) == BucketKeyForIp(IPv6, t2) <==> h1[..4] == h2[..4]
  {
    ParserInvertsPrinter(t1, h1);
    ParserInvertsPrinter(t2, h2);
    if BucketKeyForIp(IPv6, t1) == BucketKeyForIp(IPv6, t2) {
      KeyInjective(h1[..4], h2[..4]);
    }
  }

  /** An address of another family, whose text has no colon, is its own key and
    * never shares one with an IPv6 address. */
  lemma FamiliesKeepApart(family: IpFamily, t1: string, t2: string, h2: seq<nat>)
    requires family != IPv6 && ':' !in t1 && PrintsAs(t2, h2)
    ensures BucketKeyForIp(family, t1) == t1 != BucketKeyForIp(IPv6, t2)
  {
    ParserInvertsPrinter(t2, h2);
    var key := KeyOf(h2[..4]);
    assert key[|key| - 4] == ':';
  }
}
