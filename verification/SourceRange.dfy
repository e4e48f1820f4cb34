/** Source ranges and the labels they are compared by (internal/source_range.go). */
module SourceRange {
  import opened Wrappers
  import opened Text

  datatype Family = V4 | V6

  function Width(f: Family): nat {
    if f == V4 then 32 else 128
  }

  /** An address as a number of its family, with the zone an IPv6 literal may carry. */
  datatype Addr = Addr(family: Family, value: nat, zone: string)

  /** `netip.Prefix`; `NoPrefix` is its zero value. */
  datatype Prefix = NoPrefix | Prefix(addr: Addr, bits: nat)

  /** What the program takes from `net/netip`. */
  datatype Netip = Netip(parseAddr: string -> Option<Addr>, parsePrefix: string -> Option<Prefix>,
                         addrText: Addr -> string)

  predicate ValidAddr(a: Addr) {
    a.value < Pow2(Width(a.family))
  }

  predicate ValidPrefix(p: Prefix) {
    p.Prefix? && ValidAddr(p.addr) && p.addr.zone == "" && p.bits <= Width(p.addr.family)
  }

  /** The characters an address without a zone prints with. */
  predicate AddrChars(s: string) {
    s != "" && forall c :: c in s ==> DigitValue(c) < 16 || c == '.' || c == ':'
  }

  /**
   Parsing yields valid values; zoneless addresses print apart, in digits, dots and
   colons; and a prefix is read back from its text.
   */
  ghost predicate Lawful(n: Netip) {
    && (forall s {:trigger n.parseAddr(s)} :: n.parseAddr(s).Some? ==> ValidAddr(n.parseAddr(s).value))
    && (forall s {:trigger n.parsePrefix(s)} :: n.parsePrefix(s).Some? ==> ValidPrefix(n.parsePrefix(s).value))
    && (forall a: Addr {:trigger n.addrText(a)} :: a.zone == "" ==> AddrChars(n.addrText(a)))
    && (forall p: Prefix {:trigger PrefixText(n, p)} :: ValidPrefix(p) ==> n.parsePrefix(PrefixText(n, p)) == Some(p))
    && (forall a: Addr, b: Addr {:trigger n.addrText(a), n.addrText(b)} ::
          a.zone == b.zone == "" && n.addrText(a) == n.addrText(b) ==> a == b)
  }

  function Pow2(n: nat): (r: nat)
    ensures r > 0
  {
    if n == 0 then 1 else 2 * Pow2(n - 1)
  }

  /** How many addresses share a prefix. */
  function BlockSize(p: Prefix): (d: nat)
    requires ValidPrefix(p)
    ensures d > 0
  {
    Pow2(Width(p.addr.family) - p.bits)
  }

  /** The first value of the block a value lies in. */
  function BlockStart(v: nat, d: nat): nat
    requires d > 0
  {
    DivBlock(v, d);
    (v / d) * d
  }

  /** `Prefix.Masked`: the host bits are cleared. */
  function Masked(p: Prefix): Prefix
    requires ValidPrefix(p)
  {
    p.(addr := p.addr.(value := BlockStart(p.addr.value, BlockSize(p))))
  }

  /** `ParseSourceRange`. */
  function ParseSourceRange(n: Netip, value: string): Option<Prefix>
    requires Lawful(n)
  {
    if value == "" then Some(NoPrefix)
    else if '/' in value then
      match n.parsePrefix(value)
      case None => None
      case Some(p) => Some(Masked(p))
    else
      match n.parseAddr(value)
      case None => None
      case Some(a) => Some(Prefix(a.(zone := ""), Width(a.family)))
  }

  function PrefixText(n: Netip, p: Prefix): string
    requires p.Prefix?
  {
    n.addrText(p.addr) + "/" + Itoa(p.bits)
  }

  /** `sourceRangeLabel`. */
  function RangeLabel(n: Netip, p: Prefix): string {
    if p.NoPrefix? then "" else PrefixText(n, p)
  }

  /** `socatRangeOptions`. */
  function SocatRangeOptions(n: Netip, p: Prefix): string {
    if p.NoPrefix? then ""
    else if p.addr.family == V4 then ",pf=ip4,range=" + PrefixText(n, p)
    else ",pf=ip6,range=[" + n.addrText(p.addr) + "]/" + Itoa(p.bits)
  }

  /** The clients a range accepts: those of its family that agree with it on its leading bits. */
  predicate Admits(p: Prefix, client: Addr)
    requires p.NoPrefix? || ValidPrefix(p)
  {
    p.NoPrefix? ||
    (client.family == p.addr.family && client.value / BlockSize(p) == p.addr.value / BlockSize(p))
  }

  ghost predicate SameClients(p: Prefix, q: Prefix)
    requires p.NoPrefix? || ValidPrefix(p)
    requires q.NoPrefix? || ValidPrefix(q)
  {
    forall c {:trigger Admits(p, c)} {:trigger Admits(q, c)} :: ValidAddr(c) ==> (Admits(p, c) <==> Admits(q, c))
  }

  /** A prefix without host bits. */
  predicate IsMasked(p: Prefix) {
    ValidPrefix(p) && p.addr.value % BlockSize(p) == 0
  }

  // ------------------------------------------------------------------ arithmetic

  lemma DivBlock(v: nat, d: nat)
    requires d > 0
    ensures var b := (v / d) * d; 0 <= b <= v < b + d && b % d == 0 && b / d == v / d
  {
    var q := v / d;
    assert v == q * d + v % d;
    MulMono(0, q, d);
    MulDiv(q, d);
  }

  lemma MulDiv(q: nat, d: nat)
    requires d > 0
    ensures (q * d) / d == q && (q * d) % d == 0
  {
    var b := q * d;
    assert b == (b / d) * d + b % d;
    assert (q - b / d) * d == q * d - (b / d) * d;
    Cancel(q - b / d, d);
  }

  lemma MulMono(a: int, b: int, d: nat)
    requires a <= b
    ensures a * d <= b * d
  {
  }

  lemma Cancel(x: int, d: nat)
    requires 0 - d < x * d < d
    ensures x == 0
  {
    if x > 0 {
      MulMono(1, x, d);
    } else if x < 0 {
      MulMono(x, -1, d);
    }
  }

  /** The block of a masked value is an interval. */
  lemma BlockIsInterval(c: nat, b: nat, d: nat)
    requires d > 0 && b % d == 0
    ensures c / d == b / d <==> b <= c < b + d
  {
    DivBlock(c, d);
    var k, q := c / d, b / d;
    assert b == q * d;
    if b <= c < b + d {
      assert (k - q) * d == k * d - q * d;
      Cancel(k - q, d);
    }
  }

  lemma {:induction false} Pow2Splits(n: nat, k: nat)
    requires k <= n
    ensures Pow2(n) == Pow2(n - k) * Pow2(k)
  {
    if k > 0 {
      Pow2Splits(n - 1, k - 1);
      assert Pow2(n) == 2 * (Pow2(n - k) * Pow2(k - 1));
    }
  }

  lemma {:induction false} Pow2Grows(a: nat, b: nat)
    requires a < b
    ensures Pow2(a) < Pow2(b)
  {
    if a < b - 1 {
      Pow2Grows(a, b - 1);
    }
  }

  /** The block of a masked prefix ends within the family. */
  lemma BlockFits(p: Prefix)
    requires IsMasked(p)
    ensures p.addr.value + BlockSize(p) <= Pow2(Width(p.addr.family))
  {
    var d := BlockSize(p);
    var w := Width(p.addr.family);
    Pow2Splits(w, w - p.bits);
    NextMultiple(p.addr.value, d, Pow2(p.bits));
  }

  lemma NextMultiple(v: nat, d: nat, n: nat)
    requires d > 0 && v % d == 0 && v < n * d
    ensures v + d <= n * d
  {
    var q := v / d;
    assert v == q * d;
    if q < n {
      MulMono(q + 1, n, d);
      assert (q + 1) * d == q * d + d;
    } else {
      MulMono(n, q, d);
    }
  }

  // ------------------------------------------------------------------ properties

  /** Masking clears the host bits, keeps the admitted clients, and is idempotent. */
  lemma MaskedMeaning(p: Prefix)
    requires ValidPrefix(p)
    ensures IsMasked(Masked(p)) && SameClients(p, Masked(p)) && Masked(Masked(p)) == Masked(p)
  {
    DivBlock(p.addr.value, BlockSize(p));
    assert BlockSize(Masked(p)) == BlockSize(p);
  }

  lemma ParsedIsMasked(n: Netip, value: string)
    requires Lawful(n) && ParseSourceRange(n, value).Some?
    ensures var p := ParseSourceRange(n, value).value;
            (value == "" <==> p.NoPrefix?) && (p.Prefix? ==> IsMasked(p))
  {
    if '/' in value {
      MaskedMeaning(n.parsePrefix(value).value);
    }
  }

  /**
   What a value means. It is accepted exactly when it is empty or the parser of its
   form accepts it. The empty value admits every client, an address the clients of its
   family with its value, and a CIDR those that agree with it on its leading bits.
   */
  lemma RangeMeaning(n: Netip, value: string, client: Addr)
    requires Lawful(n) && ValidAddr(client)
    ensures ParseSourceRange(n, value).Some? <==>
            || value == ""
            || ('/' !in value && n.parseAddr(value).Some?)
            || ('/' in value && n.parsePrefix(value).Some?)
    ensures var r := ParseSourceRange(n, value);
            r.Some? ==>
              && (r.value.NoPrefix? || ValidPrefix(r.value))
              && (Admits(r.value, client) <==>
                  || value == ""
                  || ('/' !in value && SameAddress(n.parseAddr(value), client))
                  || ('/' in value && InBlock(n.parsePrefix(value), client)))
  {
    if value != "" && '/' in value && n.parsePrefix(value).Some? {
      var p := n.parsePrefix(value).value;
      var width := if p.addr.family == V4 then 32 else 128;
      assert ValidPrefix(p);
      MaskedMeaning(p);
      LeadingBitsAre(client.value, width, p.bits);
      LeadingBitsAre(p.addr.value, width, p.bits);
    } else if value != "" && '/' !in value && n.parseAddr(value).Some? {
      assert Pow2(0) == 1;
    }
  }

  /** The client is the parsed address, zones aside. */
  predicate SameAddress(a: Option<Addr>, client: Addr) {
    a.Some? && client.family == a.value.family && client.value == a.value.value
  }

  /** The client is of the prefix's family and has its leading bits. */
  predicate InBlock(p: Option<Prefix>, client: Addr) {
    && p.Some? && p.value.Prefix? && client.family == p.value.addr.family
    && SameLeadingBits(client.value, p.value.addr.value, if client.family == V4 then 32 else 128, p.value.bits)
  }

  predicate SameLeadingBits(v: nat, v': nat, width: nat, bits: nat) {
    bits <= width && LeadingBits(v, width, bits) == LeadingBits(v', width, bits)
  }

  /** The leading bits of a number of a given width. */
  function LeadingBits(v: nat, width: nat, bits: nat): nat
    requires bits <= width
  {
    if width == bits then v else LeadingBits(v / 2, width - 1, bits)
  }

  lemma {:induction false} LeadingBitsAre(v: nat, width: nat, bits: nat)
    requires bits <= width
    ensures LeadingBits(v, width, bits) == v / Pow2(width - bits)
  {
    if bits < width {
      LeadingBitsAre(v / 2, width - 1, bits);
      DivTwice(v, Pow2(width - 1 - bits));
    }
  }

  lemma DivTwice(v: nat, d: nat)
    requires d > 0
    ensures v / 2 / d == v / (2 * d)
  {
    var q := v / 2 / d;
    assert v / 2 == q * d + v / 2 % d;
    assert v == q * (2 * d) + (2 * (v / 2 % d) + v % 2);
    BlockQuotient(v, 2 * d, q, 2 * (v / 2 % d) + v % 2);
  }

  lemma BlockQuotient(v: nat, d: nat, q: nat, r: nat)
    requires d > 0 && r < d && v == q * d + r
    ensures v / d == q
  {
    assert v == (v / d) * d + v % d;
    assert (q - v / d) * d == v % d - r;
    Cancel(q - v / d, d);
  }

  /** The label of an accepted value is itself a value, of the same range. */
  lemma RangeLabelIsRead(n: Netip, value: string)
    requires Lawful(n) && ParseSourceRange(n, value).Some?
    ensures ParseSourceRange(n, RangeLabel(n, ParseSourceRange(n, value).value)) == ParseSourceRange(n, value)
  {
    ParsedIsMasked(n, value);
    var p := ParseSourceRange(n, value).value;
    if p.Prefix? {
      var t := PrefixText(n, p);
      assert t[|n.addrText(p.addr)|] == '/';
      MaskedTwice(p);
    }
  }

  /** A prefix without host bits is its own masked form. */
  lemma MaskedTwice(p: Prefix)
    requires IsMasked(p)
    ensures Masked(p) == p
  {
    assert p.addr.value == (p.addr.value / BlockSize(p)) * BlockSize(p);
  }

  lemma TextIsInjective(n: Netip, p: Prefix, q: Prefix)
    requires Lawful(n) && ValidPrefix(p) && ValidPrefix(q)
    ensures PrefixText(n, p) == PrefixText(n, q) <==> p == q
  {
    if PrefixText(n, p) == PrefixText(n, q) {
      assert PrefixText(n, p) == n.addrText(p.addr) + ['/'] + Itoa(p.bits);
      assert PrefixText(n, q) == n.addrText(q.addr) + ['/'] + Itoa(q.bits);
      NoSlashIn(n.addrText(p.addr));
      NoSlashIn(n.addrText(q.addr));
      FirstAt(n.addrText(p.addr), '/', Itoa(p.bits));
      FirstAt(n.addrText(q.addr), '/', Itoa(q.bits));
      var a, b: int := p.bits, q.bits;
      assert 0 <= a <= 128 && 0 <= b <= 128;
      AtoiItoa(a);
      AtoiItoa(b);
    }
  }

  lemma NoSlashIn(s: string)
    requires AddrChars(s)
    ensures '/' !in s && ',' !in s && ']' !in s && IsWord(s)
  {
    assert DigitValue('/') == DigitValue(',') == DigitValue(']') == 16;
    assert forall k :: 0 <= k < |s| ==> s[k] in s;
  }

  /** The masked prefix is the canonical name of its set of clients. */
  lemma MaskedIsCanonical(p: Prefix, q: Prefix)
    requires IsMasked(p) && IsMasked(q) && SameClients(p, q)
    ensures p == q
  {
    assert Admits(p, p.addr) && Admits(q, q.addr);
    var dp, dq := BlockSize(p), BlockSize(q);
    BlockIsInterval(p.addr.value, q.addr.value, dq);
    BlockIsInterval(q.addr.value, p.addr.value, dp);
    assert p.addr == q.addr;
    BlockFits(p);
    BlockFits(q);
    var lastP := p.addr.(value := p.addr.value + dp - 1);
    var lastQ := q.addr.(value := q.addr.value + dq - 1);
    BlockIsInterval(lastP.value, p.addr.value, dp);
    BlockIsInterval(lastP.value, q.addr.value, dq);
    BlockIsInterval(lastQ.value, p.addr.value, dp);
    BlockIsInterval(lastQ.value, q.addr.value, dq);
    assert Admits(p, lastP) && Admits(q, lastQ);
    assert dp == dq;
    var w := Width(p.addr.family);
    if p.bits < q.bits {
      Pow2Grows(w - q.bits, w - p.bits);
    } else if q.bits < p.bits {
      Pow2Grows(w - p.bits, w - q.bits);
    }
  }

  /**
   Two accepted values get the same label exactly when they admit the same clients,
   the empty value, which admits every client of both families, included. Comparing
   labels as strings is comparing the admitted sets.
   */
  lemma RangeLabelsAreCanonical(n: Netip, v: string, w: string)
    requires Lawful(n) && ParseSourceRange(n, v).Some? && ParseSourceRange(n, w).Some?
    ensures var p, q := ParseSourceRange(n, v).value, ParseSourceRange(n, w).value;
            (p.NoPrefix? || IsMasked(p)) && (q.NoPrefix? || IsMasked(q))
            && (RangeLabel(n, p) == RangeLabel(n, q) <==> SameClients(p, q))
  {
    var p, q := ParseSourceRange(n, v).value, ParseSourceRange(n, w).value;
    ParsedIsMasked(n, v);
    ParsedIsMasked(n, w);
    if p.Prefix? && q.Prefix? {
      TextIsInjective(n, p, q);
      if SameClients(p, q) {
        MaskedIsCanonical(p, q);
      }
    } else if p.Prefix? {
      OtherFamilyRefused(p);
    } else if q.Prefix? {
      OtherFamilyRefused(q);
    }
  }

  lemma OtherFamilyRefused(p: Prefix)
    requires ValidPrefix(p)
    ensures !SameClients(p, NoPrefix) && !SameClients(NoPrefix, p)
  {
    var c := Addr(if p.addr.family == V4 then V6 else V4, 0, "");
    assert ValidAddr(c) && !Admits(p, c) && Admits(NoPrefix, c);
  }

  /** The options the listeners get restrict clients as the label says: they agree exactly when the labels do. */
  lemma OptionsAgreeWithLabels(n: Netip, p: Prefix, q: Prefix)
    requires Lawful(n) && (p.NoPrefix? || ValidPrefix(p)) && (q.NoPrefix? || ValidPrefix(q))
    ensures SocatRangeOptions(n, p) == SocatRangeOptions(n, q) <==> RangeLabel(n, p) == RangeLabel(n, q)
  {
    if p.Prefix? && q.Prefix? {
      TextIsInjective(n, p, q);
      if SocatRangeOptions(n, p) == SocatRangeOptions(n, q) {
        OptionsNameTheFamily(n, p);
        OptionsNameTheFamily(n, q);
        assert p.addr.family == q.addr.family;
        if p.addr.family == V4 {
          assert PrefixText(n, p) == SocatRangeOptions(n, p)[14..];
          assert PrefixText(n, q) == SocatRangeOptions(n, q)[14..];
        } else {
          BracketsAreInjective(n, p, q);
        }
      }
    }
  }

  lemma OptionsNameTheFamily(n: Netip, p: Prefix)
    requires p.Prefix?
    ensures |SocatRangeOptions(n, p)| > 14 && SocatRangeOptions(n, p)[6] == if p.addr.family == V4 then '4' else '6'
  {
    if p.addr.family == V4 {
      assert SocatRangeOptions(n, p) == ",pf=ip4,range=" + PrefixText(n, p);
    } else {
      assert SocatRangeOptions(n, p) == ",pf=ip6,range=[" + (n.addrText(p.addr) + "]/" + Itoa(p.bits));
    }
  }

  lemma BracketsAreInjective(n: Netip, p: Prefix, q: Prefix)
    requires Lawful(n) && ValidPrefix(p) && ValidPrefix(q) && p.addr.family == q.addr.family == V6
    requires SocatRangeOptions(n, p) == SocatRangeOptions(n, q)
    ensures PrefixText(n, p) == PrefixText(n, q)
  {
    var a, b := n.addrText(p.addr), n.addrText(q.addr);
    NoSlashIn(a);
    NoSlashIn(b);
    BracketedOptions(n, p);
    BracketedOptions(n, q);
    SameTail(",pf=ip6,range=[", a + "]/" + Itoa(p.bits), b + "]/" + Itoa(q.bits));
    BracketEnds(a, b, Itoa(p.bits), Itoa(q.bits));
  }

  lemma BracketedOptions(n: Netip, p: Prefix)
    requires p.Prefix? && p.addr.family == V6
    ensures SocatRangeOptions(n, p) == ",pf=ip6,range=[" + (n.addrText(p.addr) + "]/" + Itoa(p.bits))
  {
    assert SocatRangeOptions(n, p) == ",pf=ip6,range=[" + n.addrText(p.addr) + "]/" + Itoa(p.bits);
  }

  lemma SameTail(lit: string, x: string, y: string)
    requires lit + x == lit + y
    ensures x == y
  {
    assert (lit + x)[|lit|..] == x && (lit + y)[|lit|..] == y;
  }

  lemma BracketEnds(a: string, b: string, s: string, t: string)
    requires ']' !in a && ']' !in b && a + "]/" + s == b + "]/" + t
    ensures a == b && s == t
  {
    assert a + "]/" + s == a + "]" + ("/" + s) && b + "]/" + t == b + "]" + ("/" + t);
    FirstAt(a, ']', "/" + s);
    FirstAt(b, ']', "/" + t);
    assert ("/" + s)[1..] == s && ("/" + t)[1..] == t;
  }
}
