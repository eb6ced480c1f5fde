/**
 IP addresses as Go's net/netip has them, without zones.  `Invalid(0)` is the zero Addr;
 stepping past the last address of a family yields it, and stepping on from it counts up.
 */
module Addresses {
  import opened Results

  const V4_COUNT: nat := 0x1_0000_0000
  const V6_COUNT: nat := V4_COUNT * V4_COUNT * V4_COUNT * V4_COUNT

  datatype Addr = V4(n: nat) | V6(n: nat) | Invalid(n: nat)

  predicate Valid(a: Addr) {
    (a.V4? && a.n < V4_COUNT) || (a.V6? && a.n < V6_COUNT)
  }

  function Next(a: Addr): Addr {
    match a
    case V4(n) => if n + 1 == V4_COUNT then Invalid(0) else V4(n + 1)
    case V6(n) => if n + 1 == V6_COUNT then Invalid(0) else V6(n + 1)
    case Invalid(n) => if n + 1 == V6_COUNT then Invalid(0) else Invalid(n + 1)
  }

  function BitLen(a: Addr): nat {
    if a.V4? then 32 else if a.V6? then 128 else 0
  }

  /** Addresses are ordered by bit length, then by value. */
  predicate Before(a: Addr, b: Addr) {
    BitLen(a) < BitLen(b) || (BitLen(a) == BitLen(b) && a.n < b.n)
  }

  const INVALID_TEXT: string := "invalid IP"

  /** The text form of addresses: `netip.ParseAddr` and `Addr.String`. */
  datatype Codec = Codec(parse: string -> Option<Addr>, text: Addr -> string)

  /** Characters that `strings.TrimSpace` removes. */
  predicate IsSpace(c: char) {
    var n := c as int;
    9 <= n <= 13 || n in {0x20, 0x85, 0xA0, 0x1680, 0x2028, 0x2029, 0x202F, 0x205F, 0x3000} || 0x2000 <= n <= 0x200A
  }

  /** What a printed address looks like to the pool parser. */
  predicate Plain(s: string) {
    s != [] && forall c | c in s :: c != ',' && c != '-' && !IsSpace(c)
  }

  /** What `net/netip` promises about the text form of one address. */
  ghost predicate FaithfulFor(codec: Codec, a: Addr) {
    && (Valid(a) ==> codec.parse(codec.text(a)) == Some(a) && Plain(codec.text(a)))
    && (a.Invalid? ==> codec.text(a) == INVALID_TEXT)
  }

  ghost predicate Faithful(codec: Codec) {
    && (forall a :: FaithfulFor(codec, a))
    && (forall s :: codec.parse(s).Some? ==> Valid(codec.parse(s).value))
    && codec.parse(INVALID_TEXT).None?
  }
}
