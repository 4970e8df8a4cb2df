/** The UTF-8 encoder of the script runtime (src/middleware/script_runtime.js). A JavaScript string is a
    sequence of 16-bit code units. The operators `>>`, `&` and `|` are defined bit by bit on the natural
    numbers that the encoder applies them to. */
module Utf8 {
  import opened Options

  type Unit = u: int | 0 <= u < 0x10000

  type Byte = b: int | 0 <= b < 0x100

  predicate IsHigh(u: int) { 0xd800 <= u <= 0xdbff }

  predicate IsLow(u: int) { 0xdc00 <= u <= 0xdfff }

  /** A Unicode scalar value: a code point that is not a surrogate. */
  predicate IsScalar(c: int) { 0 <= c < 0xd800 || 0xe000 <= c <= 0x10ffff }

  // ---- the operators of the encoder, bit by bit -----------------------------------------------

  function Shr(c: nat, n: nat): nat { if n == 0 then c else Shr(c / 2, n - 1) }

  function And(a: nat, b: nat): nat
    decreases a
  {
    if a == 0 || b == 0 then 0 else 2 * And(a / 2, b / 2) + if a % 2 == 1 && b % 2 == 1 then 1 else 0
  }

  function Or(a: nat, b: nat): nat
    decreases a
  {
    if a == 0 then b else 2 * Or(a / 2, b / 2) + if a % 2 == 1 || b % 2 == 1 then 1 else 0
  }

  lemma {:induction false} ShrAdds(c: nat, m: nat, n: nat)
    ensures Shr(c, m + n) == Shr(Shr(c, m), n)
  {
    if m == 0 {
    } else {
      ShrAdds(c / 2, m - 1, n);
    }
  }

  lemma ShrSix(c: nat)
    ensures Shr(c, 6) == c / 0x40
  {
    var d := c / 8;
    assert Shr(d, 3) == Shr(d / 2, 2) == Shr(d / 4, 1) == Shr(d / 8, 0);
    assert Shr(c, 6) == Shr(c / 2, 5) == Shr(c / 4, 4) == Shr(d, 3);
  }

  /** Shifts divide. */
  lemma Shifts(c: nat)
    ensures Shr(c, 6) == c / 0x40 && Shr(c, 12) == c / 0x1000 && Shr(c, 18) == c / 0x40000
  {
    ShrSix(c);
    ShrSix(c / 0x40);
    ShrSix(c / 0x1000);
    ShrAdds(c, 6, 6);
    ShrAdds(c, 12, 6);
  }

  lemma AndOnes(c: nat, ones: nat)
    ensures And(c, 2 * ones + 1) == 2 * And(c / 2, ones) + c % 2
  {
  }

  lemma AndTwo(c: nat, ones: nat)
    ensures And(c, 4 * ones + 3) == 4 * And(c / 4, ones) + c % 4
  {
    AndOnes(c, 2 * ones + 1);
    AndOnes(c / 2, ones);
    assert c / 2 / 2 == c / 4 && 2 * (c / 2 % 2) + c % 2 == c % 4;
  }

  lemma AndThree(c: nat, ones: nat)
    ensures And(c, 8 * ones + 7) == 8 * And(c / 8, ones) + c % 8
  {
    AndTwo(c, 2 * ones + 1);
    AndOnes(c / 4, ones);
    assert c / 4 / 2 == c / 8 && 4 * (c / 4 % 2) + c % 4 == c % 8;
  }

  lemma Remainders(c: nat)
    ensures 8 * (c / 8 % 8) + c % 8 == c % 0x40
  {
  }

  /** The mask takes the remainder. */
  lemma Masks(c: nat)
    ensures And(c, 0x3f) == c % 0x40
  {
    AndThree(c, 7);
    AndThree(c / 8, 0);
    assert And(c / 8 / 8, 0) == 0;
    Remainders(c);
  }

  /** The low k bits are 0, and only they may be 1. */
  predicate Clear(h: nat, k: nat) { k == 0 || (h % 2 == 0 && Clear(h / 2, k - 1)) }

  predicate Below(x: nat, k: nat) { if k == 0 then x == 0 else Below(x / 2, k - 1) }

  /** An `|` that only joins disjoint bits is a sum. */
  lemma {:induction false} OrJoins(h: nat, x: nat, k: nat)
    requires Clear(h, k) && Below(x, k)
    ensures Or(h, x) == h + x
  {
    if k == 0 {
      OrZero(h);
    } else {
      OrJoins(h / 2, x / 2, k - 1);
    }
  }

  lemma {:induction false} OrZero(h: nat)
    ensures Or(h, 0) == h
  {
    if h == 0 {
    } else {
      OrZero(h / 2);
    }
  }

  lemma BelowNext(x: nat, k: nat)
    requires Below(x / 2, k)
    ensures Below(x, k + 1)
  {
  }

  lemma BelowThree(x: nat)
    requires x < 8
    ensures Below(x, 3)
  {
    assert Below(x / 8, 0) && Below(x / 4, 1) && Below(x / 2, 2);
  }

  lemma JoinsEight(x: nat)
    requires x < 8
    ensures Or(0xf0, x) == 0xf0 + x
  {
    BelowThree(x);
    OrJoins(0xf0, x, 3);
  }

  lemma JoinsSixteen(x: nat)
    requires x < 0x10
    ensures Or(0xe0, x) == 0xe0 + x
  {
    BelowThree(x / 2);
    BelowNext(x, 3);
    OrJoins(0xe0, x, 4);
  }

  lemma JoinsThirtyTwo(x: nat)
    requires x < 0x20
    ensures Or(0xc0, x) == 0xc0 + x
  {
    BelowThree(x / 2 / 2);
    BelowNext(x / 2, 3);
    BelowNext(x, 4);
    OrJoins(0xc0, x, 5);
  }

  lemma JoinsSixtyFour(x: nat)
    requires x < 0x40
    ensures Or(0x80, x) == 0x80 + x
  {
    BelowThree(x / 2 / 2 / 2);
    BelowNext(x / 2 / 2, 3);
    BelowNext(x / 2, 4);
    BelowNext(x, 5);
    OrJoins(0x80, x, 6);
  }

  // ---- the encoder ----------------------------------------------------------------------------

  /** The number that a surrogate and the unit after it stand for. */
  function Joined(hi: Unit, lo: Unit): int { 0x10000 + (hi - 0xd800) * 0x400 + (lo - 0xdc00) }

  function Cont(c: int): Byte { 0x80 + c % 0x40 }

  function TwoBytes(c: int): seq<Byte>
    requires 0 <= c < 0x800
  {
    [0xc0 + c / 0x40, Cont(c)]
  }

  function ThreeBytes(c: int): seq<Byte>
    requires 0 <= c < 0x10000
  {
    [0xe0 + c / 0x1000, Cont(c / 0x40), Cont(c)]
  }

  function FourBytes(c: int): seq<Byte>
    requires 0 <= c < 0x200000
  {
    [0xf0 + c / 0x40000, Cont(c / 0x1000), Cont(c / 0x40), Cont(c)]
  }

  lemma ContByBits(c: nat)
    ensures Or(0x80, And(c, 0x3f)) == Cont(c)
  {
    Masks(c);
    JoinsSixtyFour(c % 0x40);
  }

  lemma ContSix(c: nat)
    ensures Or(0x80, And(Shr(c, 6), 0x3f)) == Cont(c / 0x40)
  {
    Shifts(c);
    ContByBits(c / 0x40);
  }

  lemma ContTwelve(c: nat)
    ensures Or(0x80, And(Shr(c, 12), 0x3f)) == Cont(c / 0x1000)
  {
    Shifts(c);
    ContByBits(c / 0x1000);
  }

  lemma LeadBytes(c: nat)
    ensures c < 0x800 ==> Or(0xc0, Shr(c, 6)) == 0xc0 + c / 0x40
    ensures c < 0x10000 ==> Or(0xe0, Shr(c, 12)) == 0xe0 + c / 0x1000
    ensures c < 0x200000 ==> Or(0xf0, Shr(c, 18)) == 0xf0 + c / 0x40000
  {
    Shifts(c);
    if c < 0x800 { JoinsThirtyTwo(c / 0x40); }
    if c < 0x10000 { JoinsSixteen(c / 0x1000); }
    if c < 0x200000 { JoinsEight(c / 0x40000); }
  }

  /** The bytes as the encoder computes them, with shifts, masks and joins. */
  lemma TwoByBits(c: nat)
    requires c < 0x800
    ensures TwoBytes(c) == [Or(0xc0, Shr(c, 6)), Or(0x80, And(c, 0x3f))]
  {
    LeadBytes(c);
    ContByBits(c);
  }

  lemma ThreeByBits(c: nat)
    requires c < 0x10000
    ensures ThreeBytes(c) == [Or(0xe0, Shr(c, 12)), Or(0x80, And(Shr(c, 6), 0x3f)), Or(0x80, And(c, 0x3f))]
  {
    LeadBytes(c);
    ContSix(c);
    ContByBits(c);
  }

  lemma FourByBits(c: nat)
    requires c < 0x200000
    ensures FourBytes(c) == [Or(0xf0, Shr(c, 18)), Or(0x80, And(Shr(c, 12), 0x3f)), Or(0x80, And(Shr(c, 6), 0x3f)),
                             Or(0x80, And(c, 0x3f))]
  {
    LeadBytes(c);
    ContTwelve(c);
    ContSix(c);
    ContByBits(c);
  }

  /** The bytes of the unit at the front. A high surrogate takes the next unit with it, whatever that is;
      past the end of the string JavaScript reads a NaN, whose bits are all zero. */
  function Front(s: seq<Unit>): seq<Byte>
    requires s != []
  {
    if s[0] < 0x80 then [s[0]]
    else if s[0] < 0x800 then TwoBytes(s[0])
    else if IsHigh(s[0]) then FourBytes(if |s| == 1 then 0 else Joined(s[0], s[1]))
    else ThreeBytes(s[0])
  }

  /** How many units the front takes. */
  function Used(s: seq<Unit>): (n: nat)
    requires s != []
    ensures 1 <= n <= |s|
  {
    if IsHigh(s[0]) && |s| >= 2 then 2 else 1
  }

  /** The bytes of a string. */
  function Encoded(s: seq<Unit>): seq<Byte> {
    if s == [] then [] else Front(s) + Encoded(s[Used(s)..])
  }

  /** The body of the loop: what it pushes for the unit at `i`, and where it goes on. */
  method EncodeAt(str: seq<Unit>, i: nat) returns (pushed: seq<Byte>, next: nat)
    requires i < |str|
    ensures pushed == Front(str[i..]) && next == i + if IsHigh(str[i]) then 2 else 1
  {
    var c: int := str[i];
    next := i;
    if c < 0x80 {
      pushed := [c];
    } else if c < 0x800 {
      TwoByBits(c);
      pushed := [Or(0xc0, Shr(c, 6)), Or(0x80, And(c, 0x3f))];
    } else if c >= 0xd800 && c <= 0xdbff {
      next := next + 1;
      var joined := if next < |str| then Joined(str[i], str[next]) else 0;
      FourByBits(joined);
      pushed := [Or(0xf0, Shr(joined, 18)), Or(0x80, And(Shr(joined, 12), 0x3f)), Or(0x80, And(Shr(joined, 6), 0x3f)),
                 Or(0x80, And(joined, 0x3f))];
    } else {
      ThreeByBits(c);
      pushed := [Or(0xe0, Shr(c, 12)), Or(0x80, And(Shr(c, 6), 0x3f)), Or(0x80, And(c, 0x3f))];
    }
    next := next + 1;
  }

  /** What is left to push when the loop is at `i`, which a lone surrogate at the end takes past it. */
  function Rest(str: seq<Unit>, i: nat): seq<Byte> { if i <= |str| then Encoded(str[i..]) else [] }

  lemma RestNext(str: seq<Unit>, i: nat)
    requires i < |str|
    ensures Rest(str, i) == Front(str[i..]) + Rest(str, i + if IsHigh(str[i]) then 2 else 1)
  {
    var rest := str[i..];
    assert rest[Used(rest)..] == str[i + Used(rest)..];
    assert Encoded(rest) == Front(rest) + Encoded(rest[Used(rest)..]);
    assert |rest| == 1 ==> rest[1..] == [];
  }

  lemma Joins(bytes: seq<Byte>, pushed: seq<Byte>, rest: seq<Byte>, next: seq<Byte>)
    requires rest == pushed + next
    ensures bytes + pushed + next == bytes + rest
  {
  }

  method EncodeUtf8(str: seq<Unit>) returns (bytes: seq<Byte>)
    ensures bytes == Encoded(str)
  {
    bytes := [];
    var i := 0;
    assert str[0..] == str;
    while i < |str|
      invariant bytes + Rest(str, i) == Encoded(str)
      decreases |str| - i
    {
      var pushed, next := EncodeAt(str, i);
      RestNext(str, i);
      Joins(bytes, pushed, Rest(str, i), Rest(str, next));
      bytes, i := bytes + pushed, next;
    }
  }

  // ---- what a string means --------------------------------------------------------------------

  /** Every surrogate is half of a pair (section 2.2 of RFC 2781). */
  predicate WellFormed(s: seq<Unit>) {
    if s == [] then true
    else if IsHigh(s[0]) then |s| >= 2 && IsLow(s[1]) && WellFormed(s[2..])
    else !IsLow(s[0]) && WellFormed(s[1..])
  }

  /** The code points of a well-formed string. */
  function Points(s: seq<Unit>): seq<int>
    requires WellFormed(s)
  {
    if s == [] then []
    else if IsHigh(s[0]) then [Joined(s[0], s[1])] + Points(s[2..])
    else [s[0]] + Points(s[1..])
  }

  /** The units of one code point (section 2.1 of RFC 2781). */
  function UnitsOf(c: int): seq<Unit>
    requires IsScalar(c)
  {
    if c < 0x10000 then [c] else [0xd800 + (c - 0x10000) / 0x400, 0xdc00 + (c - 0x10000) % 0x400]
  }

  predicate Scalars(cs: seq<int>) { forall i | 0 <= i < |cs| :: IsScalar(cs[i]) }

  function Units(cs: seq<int>): seq<Unit>
    requires Scalars(cs)
  {
    if cs == [] then [] else UnitsOf(cs[0]) + Units(cs[1..])
  }

  // ---- a strict decoder -----------------------------------------------------------------------

  predicate IsCont(b: Byte) { 0x80 <= b < 0xc0 }

  function Checked(c: int, least: int, n: nat): (r: Option<(int, nat)>)
    ensures r.Some? ==> r.value == (c, n) && IsScalar(c)
  {
    if c >= least && IsScalar(c) then Some((c, n)) else None
  }

  function Two(a: int, b: int): int { (a - 0xc0) * 0x40 + (b - 0x80) }

  function Three(a: int, b: int, c: int): int { (a - 0xe0) * 0x1000 + (b - 0x80) * 0x40 + (c - 0x80) }

  function Four(a: int, b: int, c: int, d: int): int {
    (a - 0xf0) * 0x40000 + (b - 0x80) * 0x1000 + (c - 0x80) * 0x40 + (d - 0x80)
  }

  /** The first code point of a byte sequence, and how many bytes it takes (section 3 of RFC 3629): no
      overlong form, no surrogate and nothing above 10FFFF. */
  function First(b: seq<Byte>): (r: Option<(int, nat)>)
    ensures r.Some? ==> 1 <= r.value.1 <= |b| && IsScalar(r.value.0)
  {
    if |b| >= 1 && b[0] < 0x80 then Some((b[0], 1))
    else if |b| >= 2 && 0xc0 <= b[0] < 0xe0 && IsCont(b[1]) then Checked(Two(b[0], b[1]), 0x80, 2)
    else if |b| >= 3 && 0xe0 <= b[0] < 0xf0 && IsCont(b[1]) && IsCont(b[2]) then
      Checked(Three(b[0], b[1], b[2]), 0x800, 3)
    else if |b| >= 4 && 0xf0 <= b[0] < 0xf8 && IsCont(b[1]) && IsCont(b[2]) && IsCont(b[3]) then
      Checked(Four(b[0], b[1], b[2], b[3]), 0x10000, 4)
    else None
  }

  function Decoded(b: seq<Byte>): (r: Option<seq<int>>)
    ensures r.Some? ==> Scalars(r.value)
  {
    if b == [] then Some([])
    else match First(b)
      case None => None
      case Some((c, n)) =>
        match Decoded(b[n..])
        case None => None
        case Some(cs) => Some([c] + cs)
  }

  // ---- round trips ----------------------------------------------------------------------------

  /** The bytes of a scalar value. */
  function BytesOf(c: int): seq<Byte>
    requires IsScalar(c)
  {
    if c < 0x80 then [c] else if c < 0x800 then TwoBytes(c) else if c < 0x10000 then ThreeBytes(c) else FourBytes(c)
  }

  lemma TwoOf(c: int)
    requires 0x80 <= c < 0x800
    ensures Two(0xc0 + c / 0x40, Cont(c)) == c && 0xc0 <= 0xc0 + c / 0x40 < 0xe0
  {
  }

  lemma ThreeOf(c: int)
    requires 0x800 <= c < 0x10000
    ensures Three(0xe0 + c / 0x1000, Cont(c / 0x40), Cont(c)) == c && 0xe0 <= 0xe0 + c / 0x1000 < 0xf0
  {
    var d := c / 0x40;
    assert d / 0x40 == c / 0x1000;
  }

  lemma FourOf(c: int)
    requires 0x10000 <= c <= 0x10ffff
    ensures Four(0xf0 + c / 0x40000, Cont(c / 0x1000), Cont(c / 0x40), Cont(c)) == c
    ensures 0xf0 <= 0xf0 + c / 0x40000 < 0xf8
  {
    var d := c / 0x40;
    var e := d / 0x40;
    assert e == c / 0x1000 && e / 0x40 == c / 0x40000;
  }

  lemma FirstOfBytes(c: int, rest: seq<Byte>)
    requires IsScalar(c)
    ensures First(BytesOf(c) + rest) == Some((c, |BytesOf(c)|))
    ensures (BytesOf(c) + rest)[|BytesOf(c)|..] == rest
  {
    if c < 0x80 {
    } else if c < 0x800 {
      TwoOf(c);
    } else if c < 0x10000 {
      ThreeOf(c);
    } else {
      FourOf(c);
    }
  }

  lemma PairIsScalar(hi: Unit, lo: Unit)
    requires IsHigh(hi) && IsLow(lo)
    ensures 0x10000 <= Joined(hi, lo) <= 0x10ffff
    ensures UnitsOf(Joined(hi, lo)) == [hi, lo]
  {
    var c := Joined(hi, lo) - 0x10000;
    assert c == (hi - 0xd800) * 0x400 + (lo - 0xdc00);
    assert c / 0x400 == hi - 0xd800 && c % 0x400 == lo - 0xdc00;
  }

  /** The front of a well-formed string is the bytes of its first code point. */
  lemma FrontIsBytes(s: seq<Unit>)
    requires s != [] && WellFormed(s)
    ensures IsScalar(Points(s)[0]) && Front(s) == BytesOf(Points(s)[0])
    ensures WellFormed(s[Used(s)..]) && Points(s) == [Points(s)[0]] + Points(s[Used(s)..])
  {
    if IsHigh(s[0]) {
      PairIsScalar(s[0], s[1]);
    }
  }

  /** A decoder gives back exactly the code points of every well-formed string. */
  lemma {:induction false} DecodesToPoints(s: seq<Unit>)
    requires WellFormed(s)
    ensures Decoded(Encoded(s)) == Some(Points(s))
  {
    if s == [] {
    } else {
      FrontIsBytes(s);
      DecodesToPoints(s[Used(s)..]);
      FirstOfBytes(Points(s)[0], Encoded(s[Used(s)..]));
    }
  }

  lemma {:induction false} UnitsOfPoints(s: seq<Unit>)
    requires WellFormed(s)
    ensures Scalars(Points(s)) && Units(Points(s)) == s
  {
    if s == [] {
    } else {
      FrontIsBytes(s);
      UnitsOfPoints(s[Used(s)..]);
      if IsHigh(s[0]) {
        PairIsScalar(s[0], s[1]);
      }
      assert Points(s)[1..] == Points(s[Used(s)..]);
    }
  }

  lemma WellFormedNext(c: int, s: seq<Unit>)
    requires IsScalar(c) && WellFormed(s)
    ensures WellFormed(UnitsOf(c) + s)
  {
    if c < 0x10000 {
      assert (UnitsOf(c) + s)[1..] == s;
    } else {
      assert (UnitsOf(c) + s)[2..] == s;
    }
  }

  lemma {:induction false} DecodedIsWellFormed(b: seq<Byte>)
    requires Decoded(b).Some?
    ensures WellFormed(Units(Decoded(b).value))
  {
    if b == [] {
    } else {
      var (c, n) := First(b).value;
      DecodedIsWellFormed(b[n..]);
      WellFormedNext(c, Units(Decoded(b[n..]).value));
    }
  }

  /** The bytes are UTF-8 for the string itself exactly when the string is well-formed. */
  lemma RoundTripIff(s: seq<Unit>)
    ensures (Decoded(Encoded(s)).Some? && Units(Decoded(Encoded(s)).value) == s) <==> WellFormed(s)
  {
    if WellFormed(s) {
      DecodesToPoints(s);
      UnitsOfPoints(s);
    } else if Decoded(Encoded(s)).Some? {
      DecodedIsWellFormed(Encoded(s));
    }
  }
}
