/** IP addresses as bit strings and CIDR prefixes over them (section 3.1 of RFC 4632). */
module Net {
  import opened Text

  /** An address is its 32 or 128 bits, most significant first. */
  type Addr = seq<bool>

  datatype Prefix = Prefix(addr: Addr, len: int)

  predicate IsValid(p: Prefix) {
    (|p.addr| == 32 || |p.addr| == 128) && 0 <= p.len <= |p.addr|
  }

  /** IPv4 or IPv6, from the whole address space down to one address. */
  lemma ValidPrefix(p: Prefix)
    ensures |p.addr| == 32 ==> (IsValid(p) <==> 0 <= p.len < 33)
    ensures |p.addr| == 128 ==> (IsValid(p) <==> 0 <= p.len < 129)
    ensures IsValid(p) ==> |p.addr| in {32, 128}
  {
  }

  /** `Prefix.Masked`: the host bits cleared. */
  function Masked(p: Prefix): Prefix
    requires IsValid(p)
  {
    p.(addr := p.addr[..p.len] + seq(|p.addr| - p.len, _ => false))
  }

  /** The only prefixes the managed-route ledger accepts. */
  predicate Canonical4(p: Prefix) {
    IsValid(p) && |p.addr| == 32 && p == Masked(p)
  }

  /** Masking keeps the network bits and clears the others, so a canonical prefix is one
      of 32 bits with nothing behind its length. */
  lemma MaskedBits(p: Prefix)
    requires IsValid(p)
    ensures var m := Masked(p);
      && m.len == p.len && |m.addr| == |p.addr|
      && forall i :: 0 <= i < |p.addr| ==> m.addr[i] == (i < p.len && p.addr[i])
    ensures Canonical4(p) <==> |p.addr| == 32 && forall i :: p.len <= i < 32 ==> !p.addr[i]
  {
    if |p.addr| == 32 && forall i :: p.len <= i < 32 ==> !p.addr[i] {
      assert Masked(p).addr == p.addr;
    }
    if Canonical4(p) {
      forall i | p.len <= i < 32 ensures !p.addr[i] {
        assert Masked(p).addr[i] == false;
      }
    }
  }

  predicate Contains(p: Prefix, a: Addr)
    requires IsValid(p)
  {
    |a| == |p.addr| && a[..p.len] == p.addr[..p.len]
  }

  function Value(bits: seq<bool>): nat {
    if bits == [] then 0
    else 2 * Value(bits[..|bits| - 1]) + if bits[|bits| - 1] then 1 else 0
  }

  lemma {:induction false} ValueInjective(a: seq<bool>, b: seq<bool>)
    requires |a| == |b| && Value(a) == Value(b)
    ensures a == b
  {
    if a != [] {
      ValueInjective(a[..|a| - 1], b[..|b| - 1]);
      assert a == a[..|a| - 1] + [a[|a| - 1]] && b == b[..|b| - 1] + [b[|b| - 1]];
    }
  }

  const DOT: Byte := 46
  const SLASH: Byte := 47

  function Octet(a: Addr, i: nat): nat
    requires |a| == 32 && i < 4
  {
    Value(a[8 * i..8 * i + 8])
  }

  /** `Prefix.String` of an IPv4 prefix: four octets and the length. */
  function PrefixText(p: Prefix): Str
    requires IsValid(p) && |p.addr| == 32
  {
    Itoa(Octet(p.addr, 0)) + [DOT] + (Itoa(Octet(p.addr, 1)) + [DOT] +
    (Itoa(Octet(p.addr, 2)) + [DOT] + (Itoa(Octet(p.addr, 3)) + [SLASH] + Itoa(p.len))))
  }

  /** Eight bits and the number they stand for. */
  lemma EightBits(b: seq<bool>)
    requires |b| == 8
    ensures Value(b) == (if b[0] then 128 else 0) + (if b[1] then 64 else 0) + (if b[2] then 32 else 0) +
      (if b[3] then 16 else 0) + (if b[4] then 8 else 0) + (if b[5] then 4 else 0) + (if b[6] then 2 else 0) +
      if b[7] then 1 else 0
  {
    forall n: nat | n < 8 ensures Value(b[..n + 1]) == 2 * Value(b[..n]) + if b[n] then 1 else 0 {
      assert b[..n + 1][..n] == b[..n];
    }
    assert b[..8] == b;
    assert Value(b[..4]) == 2 * Value(b[..3]) + if b[3] then 1 else 0;
    assert Value(b[..2]) == 2 * Value(b[..1]) + if b[1] then 1 else 0;
    assert Value(b[..1]) == 2 * Value(b[..0]) + if b[0] then 1 else 0;
    assert Value(b[..8]) == 2 * Value(b[..7]) + if b[7] then 1 else 0;
    assert Value(b[..6]) == 2 * Value(b[..5]) + if b[5] then 1 else 0;
  }

  /** The documentation network 192.0.2.0/24 in its usual text. */
  lemma TextOfAPrefix(addr: Addr)
    requires |addr| == 32 && addr[0..8] == [true, true, false, false, false, false, false, false]
    requires addr[8..16] == addr[24..32] == [false, false, false, false, false, false, false, false]
    requires addr[16..24] == [false, false, false, false, false, false, true, false]
    ensures PrefixText(Prefix(addr, 24)) == [49, 57, 50, 46, 48, 46, 50, 46, 48, 47, 50, 52]
  {
    assert Itoa(192) == [49, 57, 50] && Itoa(0) == [48] && Itoa(2) == [50] && Itoa(24) == [50, 52];
    EightBits(addr[0..8]);
    EightBits(addr[8..16]);
    EightBits(addr[16..24]);
    EightBits(addr[24..32]);
    assert Octet(addr, 0) == 192 && Octet(addr, 1) == 0 && Octet(addr, 2) == 2 && Octet(addr, 3) == 0;
  }

  lemma NumeralEnds(m: nat, x: Str, n: nat, y: Str, sep: Byte)
    requires sep < 48
    requires Itoa(m) + [sep] + x == Itoa(n) + [sep] + y
    ensures m == n && x == y
  {
    ItoaDigits(m);
    ItoaDigits(n);
    SplitUnique(Itoa(m), x, Itoa(n), y, sep);
    ItoaInjective(m, n);
  }

  lemma OctetsInjective(a: Addr, b: Addr)
    requires |a| == |b| == 32 && forall i :: 0 <= i < 4 ==> Octet(a, i) == Octet(b, i)
    ensures a == b
  {
    assert Octet(a, 0) == Octet(b, 0) && Octet(a, 1) == Octet(b, 1) && Octet(a, 2) == Octet(b, 2) &&
      Octet(a, 3) == Octet(b, 3);
    ValueInjective(a[0..8], b[0..8]);
    ValueInjective(a[8..16], b[8..16]);
    ValueInjective(a[16..24], b[16..24]);
    ValueInjective(a[24..32], b[24..32]);
    assert a == a[0..8] + a[8..16] + a[16..24] + a[24..32];
    assert b == b[0..8] + b[8..16] + b[16..24] + b[24..32];
  }

  /** The text names the prefix, so sorting by text orders prefixes strictly. */
  lemma PrefixTextInjective(p: Prefix, q: Prefix)
    requires Canonical4(p) && Canonical4(q) && PrefixText(p) == PrefixText(q)
    ensures p == q
  {
    hide Octet, Itoa, Masked;
    var a, b := p.addr, q.addr;
    var p3, q3 := Itoa(Octet(a, 3)) + [SLASH] + Itoa(p.len), Itoa(Octet(b, 3)) + [SLASH] + Itoa(q.len);
    var p2, q2 := Itoa(Octet(a, 2)) + [DOT] + p3, Itoa(Octet(b, 2)) + [DOT] + q3;
    var p1, q1 := Itoa(Octet(a, 1)) + [DOT] + p2, Itoa(Octet(b, 1)) + [DOT] + q2;
    NumeralEnds(Octet(a, 0), p1, Octet(b, 0), q1, DOT);
    NumeralEnds(Octet(a, 1), p2, Octet(b, 1), q2, DOT);
    NumeralEnds(Octet(a, 2), p3, Octet(b, 2), q3, DOT);
    NumeralEnds(Octet(a, 3), Itoa(p.len), Octet(b, 3), Itoa(q.len), SLASH);
    ItoaInjective(p.len, q.len);
    OctetsInjective(a, b);
  }
}
