/**
 The CRC of transport stream sections (Annex A of ISO/IEC 13818-1): the table
 driven loop, the bit-serial register it speeds up, the division of polynomials
 over GF(2) that both compute, and what the zero residue of a section means.
 */
module Crc {
  import opened Wrappers

  const POLY: bv32 := 0x04C11DB7

  /** The entry of crc32_table at 16 * h + l. */
  function TableAt(h: bv4, l: bv4): (t: bv32) {
    match h {
    case 0x0 => match l {
      case 0x0 => 0x00000000 case 0x1 => 0x04C11DB7 case 0x2 => 0x09823B6E case 0x3 => 0x0D4326D9
      case 0x4 => 0x130476DC case 0x5 => 0x17C56B6B case 0x6 => 0x1A864DB2 case 0x7 => 0x1E475005
      case 0x8 => 0x2608EDB8 case 0x9 => 0x22C9F00F case 0xA => 0x2F8AD6D6 case 0xB => 0x2B4BCB61
      case 0xC => 0x350C9B64 case 0xD => 0x31CD86D3 case 0xE => 0x3C8EA00A case 0xF => 0x384FBDBD }
    case 0x1 => match l {
      case 0x0 => 0x4C11DB70 case 0x1 => 0x48D0C6C7 case 0x2 => 0x4593E01E case 0x3 => 0x4152FDA9
      case 0x4 => 0x5F15ADAC case 0x5 => 0x5BD4B01B case 0x6 => 0x569796C2 case 0x7 => 0x52568B75
      case 0x8 => 0x6A1936C8 case 0x9 => 0x6ED82B7F case 0xA => 0x639B0DA6 case 0xB => 0x675A1011
      case 0xC => 0x791D4014 case 0xD => 0x7DDC5DA3 case 0xE => 0x709F7B7A case 0xF => 0x745E66CD }
    case 0x2 => match l {
      case 0x0 => 0x9823B6E0 case 0x1 => 0x9CE2AB57 case 0x2 => 0x91A18D8E case 0x3 => 0x95609039
      case 0x4 => 0x8B27C03C case 0x5 => 0x8FE6DD8B case 0x6 => 0x82A5FB52 case 0x7 => 0x8664E6E5
      case 0x8 => 0xBE2B5B58 case 0x9 => 0xBAEA46EF case 0xA => 0xB7A96036 case 0xB => 0xB3687D81
      case 0xC => 0xAD2F2D84 case 0xD => 0xA9EE3033 case 0xE => 0xA4AD16EA case 0xF => 0xA06C0B5D }
    case 0x3 => match l {
      case 0x0 => 0xD4326D90 case 0x1 => 0xD0F37027 case 0x2 => 0xDDB056FE case 0x3 => 0xD9714B49
      case 0x4 => 0xC7361B4C case 0x5 => 0xC3F706FB case 0x6 => 0xCEB42022 case 0x7 => 0xCA753D95
      case 0x8 => 0xF23A8028 case 0x9 => 0xF6FB9D9F case 0xA => 0xFBB8BB46 case 0xB => 0xFF79A6F1
      case 0xC => 0xE13EF6F4 case 0xD => 0xE5FFEB43 case 0xE => 0xE8BCCD9A case 0xF => 0xEC7DD02D }
    case 0x4 => match l {
      case 0x0 => 0x34867077 case 0x1 => 0x30476DC0 case 0x2 => 0x3D044B19 case 0x3 => 0x39C556AE
      case 0x4 => 0x278206AB case 0x5 => 0x23431B1C case 0x6 => 0x2E003DC5 case 0x7 => 0x2AC12072
      case 0x8 => 0x128E9DCF case 0x9 => 0x164F8078 case 0xA => 0x1B0CA6A1 case 0xB => 0x1FCDBB16
      case 0xC => 0x018AEB13 case 0xD => 0x054BF6A4 case 0xE => 0x0808D07D case 0xF => 0x0CC9CDCA }
    case 0x5 => match l {
      case 0x0 => 0x7897AB07 case 0x1 => 0x7C56B6B0 case 0x2 => 0x71159069 case 0x3 => 0x75D48DDE
      case 0x4 => 0x6B93DDDB case 0x5 => 0x6F52C06C case 0x6 => 0x6211E6B5 case 0x7 => 0x66D0FB02
      case 0x8 => 0x5E9F46BF case 0x9 => 0x5A5E5B08 case 0xA => 0x571D7DD1 case 0xB => 0x53DC6066
      case 0xC => 0x4D9B3063 case 0xD => 0x495A2DD4 case 0xE => 0x44190B0D case 0xF => 0x40D816BA }
    case 0x6 => match l {
      case 0x0 => 0xACA5C697 case 0x1 => 0xA864DB20 case 0x2 => 0xA527FDF9 case 0x3 => 0xA1E6E04E
      case 0x4 => 0xBFA1B04B case 0x5 => 0xBB60ADFC case 0x6 => 0xB6238B25 case 0x7 => 0xB2E29692
      case 0x8 => 0x8AAD2B2F case 0x9 => 0x8E6C3698 case 0xA => 0x832F1041 case 0xB => 0x87EE0DF6
      case 0xC => 0x99A95DF3 case 0xD => 0x9D684044 case 0xE => 0x902B669D case 0xF => 0x94EA7B2A }
    case 0x7 => match l {
      case 0x0 => 0xE0B41DE7 case 0x1 => 0xE4750050 case 0x2 => 0xE9362689 case 0x3 => 0xEDF73B3E
      case 0x4 => 0xF3B06B3B case 0x5 => 0xF771768C case 0x6 => 0xFA325055 case 0x7 => 0xFEF34DE2
      case 0x8 => 0xC6BCF05F case 0x9 => 0xC27DEDE8 case 0xA => 0xCF3ECB31 case 0xB => 0xCBFFD686
      case 0xC => 0xD5B88683 case 0xD => 0xD1799B34 case 0xE => 0xDC3ABDED case 0xF => 0xD8FBA05A }
    case 0x8 => match l {
      case 0x0 => 0x690CE0EE case 0x1 => 0x6DCDFD59 case 0x2 => 0x608EDB80 case 0x3 => 0x644FC637
      case 0x4 => 0x7A089632 case 0x5 => 0x7EC98B85 case 0x6 => 0x738AAD5C case 0x7 => 0x774BB0EB
      case 0x8 => 0x4F040D56 case 0x9 => 0x4BC510E1 case 0xA => 0x46863638 case 0xB => 0x42472B8F
      case 0xC => 0x5C007B8A case 0xD => 0x58C1663D case 0xE => 0x558240E4 case 0xF => 0x51435D53 }
    case 0x9 => match l {
      case 0x0 => 0x251D3B9E case 0x1 => 0x21DC2629 case 0x2 => 0x2C9F00F0 case 0x3 => 0x285E1D47
      case 0x4 => 0x36194D42 case 0x5 => 0x32D850F5 case 0x6 => 0x3F9B762C case 0x7 => 0x3B5A6B9B
      case 0x8 => 0x0315D626 case 0x9 => 0x07D4CB91 case 0xA => 0x0A97ED48 case 0xB => 0x0E56F0FF
      case 0xC => 0x1011A0FA case 0xD => 0x14D0BD4D case 0xE => 0x19939B94 case 0xF => 0x1D528623 }
    case 0xA => match l {
      case 0x0 => 0xF12F560E case 0x1 => 0xF5EE4BB9 case 0x2 => 0xF8AD6D60 case 0x3 => 0xFC6C70D7
      case 0x4 => 0xE22B20D2 case 0x5 => 0xE6EA3D65 case 0x6 => 0xEBA91BBC case 0x7 => 0xEF68060B
      case 0x8 => 0xD727BBB6 case 0x9 => 0xD3E6A601 case 0xA => 0xDEA580D8 case 0xB => 0xDA649D6F
      case 0xC => 0xC423CD6A case 0xD => 0xC0E2D0DD case 0xE => 0xCDA1F604 case 0xF => 0xC960EBB3 }
    case 0xB => match l {
      case 0x0 => 0xBD3E8D7E case 0x1 => 0xB9FF90C9 case 0x2 => 0xB4BCB610 case 0x3 => 0xB07DABA7
      case 0x4 => 0xAE3AFBA2 case 0x5 => 0xAAFBE615 case 0x6 => 0xA7B8C0CC case 0x7 => 0xA379DD7B
      case 0x8 => 0x9B3660C6 case 0x9 => 0x9FF77D71 case 0xA => 0x92B45BA8 case 0xB => 0x9675461F
      case 0xC => 0x8832161A case 0xD => 0x8CF30BAD case 0xE => 0x81B02D74 case 0xF => 0x857130C3 }
    case 0xC => match l {
      case 0x0 => 0x5D8A9099 case 0x1 => 0x594B8D2E case 0x2 => 0x5408ABF7 case 0x3 => 0x50C9B640
      case 0x4 => 0x4E8EE645 case 0x5 => 0x4A4FFBF2 case 0x6 => 0x470CDD2B case 0x7 => 0x43CDC09C
      case 0x8 => 0x7B827D21 case 0x9 => 0x7F436096 case 0xA => 0x7200464F case 0xB => 0x76C15BF8
      case 0xC => 0x68860BFD case 0xD => 0x6C47164A case 0xE => 0x61043093 case 0xF => 0x65C52D24 }
    case 0xD => match l {
      case 0x0 => 0x119B4BE9 case 0x1 => 0x155A565E case 0x2 => 0x18197087 case 0x3 => 0x1CD86D30
      case 0x4 => 0x029F3D35 case 0x5 => 0x065E2082 case 0x6 => 0x0B1D065B case 0x7 => 0x0FDC1BEC
      case 0x8 => 0x3793A651 case 0x9 => 0x3352BBE6 case 0xA => 0x3E119D3F case 0xB => 0x3AD08088
      case 0xC => 0x2497D08D case 0xD => 0x2056CD3A case 0xE => 0x2D15EBE3 case 0xF => 0x29D4F654 }
    case 0xE => match l {
      case 0x0 => 0xC5A92679 case 0x1 => 0xC1683BCE case 0x2 => 0xCC2B1D17 case 0x3 => 0xC8EA00A0
      case 0x4 => 0xD6AD50A5 case 0x5 => 0xD26C4D12 case 0x6 => 0xDF2F6BCB case 0x7 => 0xDBEE767C
      case 0x8 => 0xE3A1CBC1 case 0x9 => 0xE760D676 case 0xA => 0xEA23F0AF case 0xB => 0xEEE2ED18
      case 0xC => 0xF0A5BD1D case 0xD => 0xF464A0AA case 0xE => 0xF9278673 case 0xF => 0xFDE69BC4 }
    case 0xF => match l {
      case 0x0 => 0x89B8FD09 case 0x1 => 0x8D79E0BE case 0x2 => 0x803AC667 case 0x3 => 0x84FBDBD0
      case 0x4 => 0x9ABC8BD5 case 0x5 => 0x9E7D9662 case 0x6 => 0x933EB0BB case 0x7 => 0x97FFAD0C
      case 0x8 => 0xAFB010B1 case 0x9 => 0xAB710D06 case 0xA => 0xA6322BDF case 0xB => 0xA2F33668
      case 0xC => 0xBCB4666D case 0xD => 0xB8757BDA case 0xE => 0xB5365D03 case 0xF => 0xB1F740B4 }
    }
  }

  function Table(i: bv8): (t: bv32) {
    TableAt((i >> 4) as bv4, (i & 0x0F) as bv4)
  }

  function Index(val: bv32, b: bv8): (i: bv8) {
    (((val >> 24) & 0xFF) as bv8) ^ b
  }

  /** The register after one more byte, as the table loop computes it. */
  function TableStep(val: bv32, b: bv8): (t: bv32) {
    (val << 8) ^ Table(Index(val, b))
  }

  function TableLoop(val: bv32, s: seq<bv8>): (t: bv32) {
    if s == [] then val else TableStep(TableLoop(val, s[..|s| - 1]), s[|s| - 1])
  }

  /** crc32: the loop computes the remainder that division by the generator polynomial leaves. */
  method Crc32(start: bv32, s: seq<bv8>) returns (val: bv32)
    ensures val == TableLoop(start, s)
    ensures ToBits(val) == Remainder(Augmented(ToBits(start), Bits(s)))
  {
    val := start;
    var k := 0;
    while k < |s|
      invariant 0 <= k <= |s| && val == TableLoop(start, s[..k])
    {
      NextByte(start, s, k);
      val := (val << 8) ^ Table(Index(val, s[k]));
      k := k + 1;
    }
    assert s[..k] == s;
    TableLoopIsDivision(start, s);
  }

  lemma NextByte(start: bv32, s: seq<bv8>, k: nat)
    requires k < |s|
    ensures TableLoop(start, s[..k + 1]) == TableStep(TableLoop(start, s[..k]), s[k])
  {
    assert s[..k + 1][..k] == s[..k];
  }

  // ---------------------------------------------------------------- polynomials over GF(2), highest power first

  function Zeros(n: nat): (z: seq<bool>)
    ensures |z| == n && forall i :: 0 <= i < n ==> !z[i]
  {
    seq(n, i => false)
  }

  /** Add g to the front of d. */
  function Add(d: seq<bool>, g: seq<bool>): (e: seq<bool>)
    ensures |e| == |d| && forall i :: 0 <= i < |d| ==> e[i] == if i < |g| then d[i] != g[i] else d[i]
  {
    seq(|d|, i requires 0 <= i < |d| => if i < |g| then d[i] != g[i] else d[i])
  }

  /** The generator polynomial without its leading term x^32. */
  const GENERATOR: seq<bool> := [
    false, false, false, false, false, true, false, false,
    true, true, false, false, false, false, false, true,
    false, false, false, true, true, true, false, true,
    true, false, true, true, false, true, true, true]

  /** Long division: while the dividend has more than 32 terms, cancel its leading one. */
  function Remainder(d: seq<bool>): (r: seq<bool>)
    decreases |d|
  {
    if |d| <= 32 then d
    else if d[0] then Remainder(Add(d[1..], GENERATOR))
    else Remainder(d[1..])
  }

  /** The message times x^32, with the start value added to its front. */
  function Augmented(start: seq<bool>, message: seq<bool>): (d: seq<bool>) {
    Add(message + Zeros(32), start)
  }

  // ---------------------------------------------------------------- the bit-serial register

  /** One message bit enters the register: it decides with the bit that falls out whether to add the generator. */
  function BitStep(r: seq<bool>, bit: bool): (t: seq<bool>)
    requires |r| == 32
    ensures |t| == 32
  {
    Add(r[1..] + [false], if r[0] != bit then GENERATOR else [])
  }

  function Serial(r: seq<bool>, message: seq<bool>): (t: seq<bool>)
    requires |r| == 32
    ensures |t| == 32
    decreases |message|
  {
    if message == [] then r else Serial(BitStep(r, message[0]), message[1..])
  }

  /** One step of the register is one step of the division. */
  lemma DivideOnce(r: seq<bool>, message: seq<bool>)
    requires |r| == 32 && message != []
    ensures Remainder(Augmented(r, message)) == Remainder(Augmented(BitStep(r, message[0]), message[1..]))
  {
    var d := Augmented(r, message);
    var e := if d[0] then Add(d[1..], GENERATOR) else d[1..];
    assert Remainder(d) == Remainder(e);
    assert e == Augmented(BitStep(r, message[0]), message[1..]);
  }

  /** The register holds the remainder of what has been divided so far. */
  lemma {:induction false} SerialIsDivision(r: seq<bool>, message: seq<bool>)
    requires |r| == 32
    ensures Serial(r, message) == Remainder(Augmented(r, message))
    decreases |message|
  {
    var d := Augmented(r, message);
    if message == [] {
      assert d == r;
    } else {
      var t := BitStep(r, message[0]);
      SerialIsDivision(t, message[1..]);
      DivideOnce(r, message);
    }
  }

  lemma {:induction false} SerialAppend(r: seq<bool>, a: seq<bool>, b: seq<bool>)
    requires |r| == 32
    ensures Serial(r, a + b) == Serial(Serial(r, a), b)
    decreases |a|
  {
    if a == [] {
      assert a + b == b;
    } else {
      assert (a + b)[1..] == a[1..] + b;
      SerialAppend(BitStep(r, a[0]), a[1..], b);
    }
  }

  /** The register is linear: message and contents can be added up before or after. */
  lemma {:induction false} SerialIsLinear(r: seq<bool>, q: seq<bool>, a: seq<bool>, b: seq<bool>)
    requires |r| == |q| == 32 && |a| == |b|
    ensures Serial(Add(r, q), Add(a, b)) == Add(Serial(r, a), Serial(q, b))
    decreases |a|
  {
    if a != [] {
      assert BitStep(Add(r, q), Add(a, b)[0]) == Add(BitStep(r, a[0]), BitStep(q, b[0]));
      assert Add(a, b)[1..] == Add(a[1..], b[1..]);
      SerialIsLinear(BitStep(r, a[0]), BitStep(q, b[0]), a[1..], b[1..]);
    }
  }

  /** Message bits that enter the register might as well have been added to its front. */
  lemma {:induction false} MessageEntersAtFront(r: seq<bool>, a: seq<bool>)
    requires |r| == 32 && |a| <= 32
    ensures Serial(r, a) == Serial(Add(r, a), Zeros(|a|))
    decreases |a|
  {
    if a == [] {
      assert Add(r, a) == r;
    } else {
      MessageEntersAtFront(BitStep(r, a[0]), a[1..]);
      FirstBitEntersAtFront(r, a);
      assert Zeros(|a|)[1..] == Zeros(|a| - 1);
    }
  }

  lemma FirstBitEntersAtFront(r: seq<bool>, a: seq<bool>)
    requires |r| == 32 && 0 < |a| <= 32
    ensures BitStep(Add(r, a), false) == Add(BitStep(r, a[0]), a[1..])
  {
  }

  /** The register runs backwards: what a bit turned into the same contents was the same. */
  lemma BitStepIsInjective(r: seq<bool>, q: seq<bool>, bit: bool)
    requires |r| == |q| == 32 && BitStep(r, bit) == BitStep(q, bit)
    ensures r == q
  {
    var t, u := BitStep(r, bit), BitStep(q, bit);
    assert t[31] == u[31];
    forall i | 1 <= i < 32
      ensures r[i] == q[i]
    {
      assert t[i - 1] == u[i - 1];
    }
  }

  lemma {:induction false} SerialIsInjective(r: seq<bool>, q: seq<bool>, message: seq<bool>)
    requires |r| == |q| == 32 && Serial(r, message) == Serial(q, message)
    ensures r == q
    decreases |message|
  {
    if message != [] {
      SerialIsInjective(BitStep(r, message[0]), BitStep(q, message[0]), message[1..]);
      BitStepIsInjective(r, q, message[0]);
    }
  }

  lemma {:induction false} ZerosStayZeros(n: nat)
    ensures Serial(Zeros(32), Zeros(n)) == Zeros(32)
  {
    if n > 0 {
      ZerosStayZeros(n - 1);
      assert BitStep(Zeros(32), false) == Zeros(32) && Zeros(n)[1..] == Zeros(n - 1);
    }
  }

  /** A register is driven to zero by exactly those message bits it holds itself. */
  lemma ZeroResidue(r: seq<bool>, message: seq<bool>)
    requires |r| == 32 && |message| <= 32
    ensures Serial(r, message) == Zeros(32) <==> r == message + Zeros(32 - |message|)
  {
    var d, n := Add(r, message), |message|;
    MessageEntersAtFront(r, message);
    ZerosStayZeros(n);
    if Serial(d, Zeros(n)) == Zeros(32) {
      SerialIsInjective(d, Zeros(32), Zeros(n));
    }
    AddsToZero(r, message);
  }

  lemma AddsToZero(r: seq<bool>, a: seq<bool>)
    requires |a| <= |r|
    ensures Add(r, a) == Zeros(|r|) <==> r == a + Zeros(|r| - |a|)
  {
    if Add(r, a) == Zeros(|r|) {
      forall i | 0 <= i < |r|
        ensures r[i] == (a + Zeros(|r| - |a|))[i]
      {
        assert !Add(r, a)[i];
      }
    }
  }

  // ---------------------------------------------------------------- words and bytes as bits

  predicate Top(r: bv32) {
    r & 0x80000000 != 0
  }

  /** The first n bits of a word, the most significant first. */
  function BitsOf(r: bv32, n: nat): (bits: seq<bool>)
    ensures |bits| == n
    decreases n
  {
    if n == 0 then [] else [Top(r)] + BitsOf(r << 1, n - 1)
  }

  function ToBits(r: bv32): (bits: seq<bool>)
    ensures |bits| == 32
  {
    BitsOf(r, 32)
  }

  function ByteBits(b: bv8): (bits: seq<bool>)
    ensures |bits| == 8
  {
    BitsOf((b as bv32) << 24, 8)
  }

  function Bits(s: seq<bv8>): (bits: seq<bool>)
    ensures |bits| == 8 * |s|
  {
    if s == [] then [] else Bits(s[..|s| - 1]) + ByteBits(s[|s| - 1])
  }

  function ShiftedBy(r: bv32, n: nat): (t: bv32)
    decreases n
  {
    if n == 0 then r else ShiftedBy(r << 1, n - 1)
  }

  lemma {:induction false} SplitBits(r: bv32, n: nat, m: nat)
    ensures BitsOf(r, n + m) == BitsOf(r, n) + BitsOf(ShiftedBy(r, n), m)
    decreases n
  {
    if n > 0 {
      SplitBits(r << 1, n - 1, m);
    }
  }

  lemma {:induction false} ShiftsAdd(r: bv32, n: nat, m: nat)
    ensures ShiftedBy(r, n + m) == ShiftedBy(ShiftedBy(r, n), m)
    decreases n
  {
    if n > 0 {
      ShiftsAdd(r << 1, n - 1, m);
    }
  }

  lemma EightShifts(r: bv32)
    ensures ShiftedBy(r, 8) == r << 8
  {
    EachShift(r);
    assert ShiftedBy(r << 4, 4) == r << 8;
    assert ShiftedBy(r, 8) == ShiftedBy(r << 4, 4);
  }

  lemma EachShift(r: bv32)
    ensures (r << 1) << 1 == r << 2 && (r << 2) << 1 == r << 3 && (r << 3) << 1 == r << 4 && (r << 4) << 1 == r << 5
    ensures (r << 5) << 1 == r << 6 && (r << 6) << 1 == r << 7 && (r << 7) << 1 == r << 8
  {
  }

  lemma AllShiftedOut(r: bv32)
    ensures ShiftedBy(r, 32) == 0
  {
    EightShifts(r);
    EightShifts(r << 8);
    EightShifts((r << 8) << 8);
    EightShifts(((r << 8) << 8) << 8);
    ShiftsAdd(r, 8, 24);
    ShiftsAdd(r << 8, 8, 16);
    ShiftsAdd((r << 8) << 8, 8, 8);
    FourBytesOut(r);
  }

  lemma FourBytesOut(r: bv32)
    ensures (((r << 8) << 8) << 8) << 8 == 0
  {
  }

  lemma {:induction false} BitsOfZero(n: nat)
    ensures BitsOf(0, n) == Zeros(n)
  {
    if n > 0 {
      BitsOfZero(n - 1);
      assert 0 as bv32 << 1 == 0;
    }
  }

  lemma {:induction false} BitsOfXor(a: bv32, b: bv32, n: nat)
    ensures BitsOf(a ^ b, n) == Add(BitsOf(a, n), BitsOf(b, n))
    decreases n
  {
    if n > 0 {
      XorFirst(a, b, n);
      BitsOfXor(a << 1, b << 1, n - 1);
      AddFirst(BitsOf(a ^ b, n), BitsOf(a, n), BitsOf(b, n));
    }
  }

  lemma SumOnBits(a: bv32, b: bv32)
    ensures ToBits(a ^ b) == Add(ToBits(a), ToBits(b))
  {
    BitsOfXor(a, b, 32);
  }

  lemma XorFirst(a: bv32, b: bv32, n: nat)
    requires n > 0
    ensures BitsOf(a ^ b, n)[1..] == BitsOf((a << 1) ^ (b << 1), n - 1)
    ensures BitsOf(a ^ b, n)[0] == (BitsOf(a, n)[0] != BitsOf(b, n)[0])
    ensures BitsOf(a, n)[1..] == BitsOf(a << 1, n - 1) && BitsOf(b, n)[1..] == BitsOf(b << 1, n - 1)
  {
    TopOfXor(a, b);
    ShiftOfXor(a, b);
  }

  lemma AddFirst(z: seq<bool>, x: seq<bool>, y: seq<bool>)
    requires 0 < |x| == |y| == |z| && z[0] == (x[0] != y[0]) && z[1..] == Add(x[1..], y[1..])
    ensures z == Add(x, y)
  {
    forall i | 0 < i < |x|
      ensures z[i] == Add(x, y)[i]
    {
      assert z[i] == z[1..][i - 1] && x[i] == x[1..][i - 1] && y[i] == y[1..][i - 1];
    }
  }

  lemma TopOfXor(a: bv32, b: bv32)
    ensures Top(a ^ b) <==> Top(a) != Top(b)
  {
  }

  lemma ShiftOfXor(a: bv32, b: bv32)
    ensures (a ^ b) << 1 == (a << 1) ^ (b << 1)
  {
  }

  lemma {:induction false} OnlyZeroIsClear(r: bv32, n: nat)
    requires BitsOf(r, n) == Zeros(n) && ShiftedBy(r, n) == 0
    ensures r == 0
    decreases n
  {
    if n > 0 {
      assert Zeros(n)[1..] == Zeros(n - 1) && BitsOf(r, n)[1..] == BitsOf(r << 1, n - 1);
      OnlyZeroIsClear(r << 1, n - 1);
      assert !BitsOf(r, n)[0];
      ShiftedToZero(r);
    }
  }

  lemma ShiftedToZero(r: bv32)
    requires !Top(r) && r << 1 == 0
    ensures r == 0
  {
  }

  lemma AddSelf(d: seq<bool>)
    ensures Add(d, d) == Zeros(|d|)
  {
  }

  lemma EqualBitsCancel(a: bv32, b: bv32)
    requires ToBits(a) == ToBits(b)
    ensures BitsOf(a ^ b, 32) == Zeros(32)
  {
    BitsOfXor(a, b, 32);
    AddSelf(ToBits(a));
  }

  lemma BitsAreInjective(a: bv32, b: bv32)
    requires ToBits(a) == ToBits(b)
    ensures a == b
  {
    EqualBitsCancel(a, b);
    AllShiftedOut(a ^ b);
    OnlyZeroIsClear(a ^ b, 32);
    XorIsZero(a, b);
  }

  lemma XorIsZero(a: bv32, b: bv32)
    requires a ^ b == 0
    ensures a == b
  {
  }

  lemma BitsOfShift(r: bv32)
    ensures ToBits(r << 1) == ToBits(r)[1..] + [false]
  {
    ShiftAppends(r, 32);
    AllShiftedOut(r);
    ZeroBit();
  }

  lemma ShiftAppends(r: bv32, n: nat)
    requires n > 0
    ensures BitsOf(r << 1, n) == BitsOf(r, n)[1..] + BitsOf(ShiftedBy(r, n), 1)
  {
    SplitBits(r, n, 1);
    assert BitsOf(r, n + 1)[1..] == BitsOf(r << 1, n);
  }

  lemma ZeroBit()
    ensures BitsOf(0, 1) == [false]
  {
    BitsOfZero(1);
  }

  lemma BitsOfByteShift(r: bv32)
    ensures ToBits(r << 8) == BitsOf(r << 8, 24) + Zeros(8)
    ensures ToBits(r) == BitsOf(r, 8) + BitsOf(r << 8, 24)
  {
    SplitBits(r, 8, 24);
    SplitBits(r << 8, 24, 8);
    EightShifts(r);
    ShiftsAdd(r, 8, 24);
    AllShiftedOut(r);
    BitsOfZero(8);
  }

  lemma FourBytes(r: bv32)
    ensures ToBits(r) == BitsOf(r, 8)
      + (BitsOf(r << 8, 8) + (BitsOf((r << 8) << 8, 8) + BitsOf(((r << 8) << 8) << 8, 8)))
  {
    EightShifts(r);
    EightShifts(r << 8);
    EightShifts((r << 8) << 8);
    SplitBits(r, 8, 24);
    SplitBits(r << 8, 8, 16);
    SplitBits((r << 8) << 8, 8, 8);
  }

  lemma BitsOfPoly()
    ensures ToBits(POLY) == GENERATOR
  {
    hide BitsOf;
    FourBytes(POLY);
    ShiftsOfPoly();
    BytesOfPoly0();
    BytesOfPoly1();
    BytesOfPoly2();
    BytesOfPoly3();
  }

  lemma ShiftsOfPoly()
    ensures POLY << 8 == 0xC11DB700 && (POLY << 8) << 8 == 0x1DB70000 && ((POLY << 8) << 8) << 8 == 0xB7000000
  {
  }

  lemma BytesOfPoly0()
    ensures BitsOf(0x04C11DB7, 8) == [false, false, false, false, false, true, false, false]
  {
  }

  lemma BytesOfPoly1()
    ensures BitsOf(0xC11DB700, 8) == [true, true, false, false, false, false, false, true]
  {
  }

  lemma BytesOfPoly2()
    ensures BitsOf(0x1DB70000, 8) == [false, false, false, true, true, true, false, true]
  {
  }

  lemma BytesOfPoly3()
    ensures BitsOf(0xB7000000, 8) == [true, false, true, true, false, true, true, true]
  {
  }

  // ---------------------------------------------------------------- the table

  /** The register as a machine word. */
  function Step(r: bv32): (t: bv32) {
    if Top(r) then (r << 1) ^ POLY else r << 1
  }

  function Steps(r: bv32, n: nat): (t: bv32)
    decreases n
  {
    if n == 0 then r else Steps(Step(r), n - 1)
  }

  lemma Row0(l: bv4)
    ensures TableAt(0x0, l) == Steps((0x0 << 28) | ((l as bv32) << 24), 8)
  {
    match l
    case 0x0 => case 0x1 => case 0x2 => case 0x3 => case 0x4 => case 0x5 => case 0x6 => case 0x7 =>
    case 0x8 => case 0x9 => case 0xA => case 0xB => case 0xC => case 0xD => case 0xE => case 0xF =>
  }

  lemma Row1(l: bv4)
    ensures TableAt(0x1, l) == Steps((0x1 << 28) | ((l as bv32) << 24), 8)
  {
    match l
    case 0x0 => case 0x1 => case 0x2 => case 0x3 => case 0x4 => case 0x5 => case 0x6 => case 0x7 =>
    case 0x8 => case 0x9 => case 0xA => case 0xB => case 0xC => case 0xD => case 0xE => case 0xF =>
  }

  lemma Row2(l: bv4)
    ensures TableAt(0x2, l) == Steps((0x2 << 28) | ((l as bv32) << 24), 8)
  {
    match l
    case 0x0 => case 0x1 => case 0x2 => case 0x3 => case 0x4 => case 0x5 => case 0x6 => case 0x7 =>
    case 0x8 => case 0x9 => case 0xA => case 0xB => case 0xC => case 0xD => case 0xE => case 0xF =>
  }

  lemma Row3(l: bv4)
    ensures TableAt(0x3, l) == Steps((0x3 << 28) | ((l as bv32) << 24), 8)
  {
    match l
    case 0x0 => case 0x1 => case 0x2 => case 0x3 => case 0x4 => case 0x5 => case 0x6 => case 0x7 =>
    case 0x8 => case 0x9 => case 0xA => case 0xB => case 0xC => case 0xD => case 0xE => case 0xF =>
  }

  lemma Row4(l: bv4)
    ensures TableAt(0x4, l) == Steps((0x4 << 28) | ((l as bv32) << 24), 8)
  {
    match l
    case 0x0 => case 0x1 => case 0x2 => case 0x3 => case 0x4 => case 0x5 => case 0x6 => case 0x7 =>
    case 0x8 => case 0x9 => case 0xA => case 0xB => case 0xC => case 0xD => case 0xE => case 0xF =>
  }

  lemma Row5(l: bv4)
    ensures TableAt(0x5, l) == Steps((0x5 << 28) | ((l as bv32) << 24), 8)
  {
    match l
    case 0x0 => case 0x1 => case 0x2 => case 0x3 => case 0x4 => case 0x5 => case 0x6 => case 0x7 =>
    case 0x8 => case 0x9 => case 0xA => case 0xB => case 0xC => case 0xD => case 0xE => case 0xF =>
  }

  lemma Row6(l: bv4)
    ensures TableAt(0x6, l) == Steps((0x6 << 28) | ((l as bv32) << 24), 8)
  {
    match l
    case 0x0 => case 0x1 => case 0x2 => case 0x3 => case 0x4 => case 0x5 => case 0x6 => case 0x7 =>
    case 0x8 => case 0x9 => case 0xA => case 0xB => case 0xC => case 0xD => case 0xE => case 0xF =>
  }

  lemma Row7(l: bv4)
    ensures TableAt(0x7, l) == Steps((0x7 << 28) | ((l as bv32) << 24), 8)
  {
    match l
    case 0x0 => case 0x1 => case 0x2 => case 0x3 => case 0x4 => case 0x5 => case 0x6 => case 0x7 =>
    case 0x8 => case 0x9 => case 0xA => case 0xB => case 0xC => case 0xD => case 0xE => case 0xF =>
  }

  lemma Row8(l: bv4)
    ensures TableAt(0x8, l) == Steps((0x8 << 28) | ((l as bv32) << 24), 8)
  {
    match l
    case 0x0 => case 0x1 => case 0x2 => case 0x3 => case 0x4 => case 0x5 => case 0x6 => case 0x7 =>
    case 0x8 => case 0x9 => case 0xA => case 0xB => case 0xC => case 0xD => case 0xE => case 0xF =>
  }

  lemma Row9(l: bv4)
    ensures TableAt(0x9, l) == Steps((0x9 << 28) | ((l as bv32) << 24), 8)
  {
    match l
    case 0x0 => case 0x1 => case 0x2 => case 0x3 => case 0x4 => case 0x5 => case 0x6 => case 0x7 =>
    case 0x8 => case 0x9 => case 0xA => case 0xB => case 0xC => case 0xD => case 0xE => case 0xF =>
  }

  lemma RowA(l: bv4)
    ensures TableAt(0xA, l) == Steps((0xA << 28) | ((l as bv32) << 24), 8)
  {
    match l
    case 0x0 => case 0x1 => case 0x2 => case 0x3 => case 0x4 => case 0x5 => case 0x6 => case 0x7 =>
    case 0x8 => case 0x9 => case 0xA => case 0xB => case 0xC => case 0xD => case 0xE => case 0xF =>
  }

  lemma RowB(l: bv4)
    ensures TableAt(0xB, l) == Steps((0xB << 28) | ((l as bv32) << 24), 8)
  {
    match l
    case 0x0 => case 0x1 => case 0x2 => case 0x3 => case 0x4 => case 0x5 => case 0x6 => case 0x7 =>
    case 0x8 => case 0x9 => case 0xA => case 0xB => case 0xC => case 0xD => case 0xE => case 0xF =>
  }

  lemma RowC(l: bv4)
    ensures TableAt(0xC, l) == Steps((0xC << 28) | ((l as bv32) << 24), 8)
  {
    match l
    case 0x0 => case 0x1 => case 0x2 => case 0x3 => case 0x4 => case 0x5 => case 0x6 => case 0x7 =>
    case 0x8 => case 0x9 => case 0xA => case 0xB => case 0xC => case 0xD => case 0xE => case 0xF =>
  }

  lemma RowD(l: bv4)
    ensures TableAt(0xD, l) == Steps((0xD << 28) | ((l as bv32) << 24), 8)
  {
    match l
    case 0x0 => case 0x1 => case 0x2 => case 0x3 => case 0x4 => case 0x5 => case 0x6 => case 0x7 =>
    case 0x8 => case 0x9 => case 0xA => case 0xB => case 0xC => case 0xD => case 0xE => case 0xF =>
  }

  lemma RowE(l: bv4)
    ensures TableAt(0xE, l) == Steps((0xE << 28) | ((l as bv32) << 24), 8)
  {
    match l
    case 0x0 => case 0x1 => case 0x2 => case 0x3 => case 0x4 => case 0x5 => case 0x6 => case 0x7 =>
    case 0x8 => case 0x9 => case 0xA => case 0xB => case 0xC => case 0xD => case 0xE => case 0xF =>
  }

  lemma RowF(l: bv4)
    ensures TableAt(0xF, l) == Steps((0xF << 28) | ((l as bv32) << 24), 8)
  {
    match l
    case 0x0 => case 0x1 => case 0x2 => case 0x3 => case 0x4 => case 0x5 => case 0x6 => case 0x7 =>
    case 0x8 => case 0x9 => case 0xA => case 0xB => case 0xC => case 0xD => case 0xE => case 0xF =>
  }

  /** Every entry of the table is eight steps of the register from its index. */
  lemma TableIsEightSteps(i: bv8)
    ensures Table(i) == Steps((i as bv32) << 24, 8)
  {
    var h, l := (i >> 4) as bv4, (i & 0x0F) as bv4;
    Nibbles(i);
    match h
    case 0x0 => Row0(l); case 0x1 => Row1(l); case 0x2 => Row2(l); case 0x3 => Row3(l);
    case 0x4 => Row4(l); case 0x5 => Row5(l); case 0x6 => Row6(l); case 0x7 => Row7(l);
    case 0x8 => Row8(l); case 0x9 => Row9(l); case 0xA => RowA(l); case 0xB => RowB(l);
    case 0xC => RowC(l); case 0xD => RowD(l); case 0xE => RowE(l); case 0xF => RowF(l);
  }

  lemma Nibbles(i: bv8)
    ensures (i as bv32) << 24 == ((((i >> 4) as bv4) as bv32) << 28) | ((((i & 0x0F) as bv4) as bv32) << 24)
  {
  }

  lemma StepOnBits(r: bv32)
    ensures ToBits(Step(r)) == BitStep(ToBits(r), false)
  {
    BitsOfShift(r);
    if Top(r) {
      SumOnBits(r << 1, POLY);
      BitsOfPoly();
    } else {
      assert Add(ToBits(r << 1), []) == ToBits(r << 1);
    }
  }

  lemma {:induction false} StepsOnBits(r: bv32, n: nat)
    ensures ToBits(Steps(r, n)) == Serial(ToBits(r), Zeros(n))
    decreases n
  {
    if n > 0 {
      StepsOnBits(Step(r), n - 1);
      assert Serial(ToBits(r), Zeros(n)) == Serial(ToBits(Step(r)), Zeros(n - 1)) by {
        StepOnBits(r);
        ZeroEnters(ToBits(r), n);
      }
    }
  }

  lemma ZeroEnters(r: seq<bool>, n: nat)
    requires |r| == 32 && n > 0
    ensures Serial(r, Zeros(n)) == Serial(BitStep(r, false), Zeros(n - 1))
  {
    hide Serial, BitStep;
    assert Zeros(n)[1..] == Zeros(n - 1) && !Zeros(n)[0];
    SerialStep(r, Zeros(n));
  }

  lemma SerialStep(r: seq<bool>, message: seq<bool>)
    requires |r| == 32 && message != []
    ensures Serial(r, message) == Serial(BitStep(r, message[0]), message[1..])
  {
  }

  /** Bits below the top byte only move up. */
  lemma LowBitsMoveUp(a: bv32)
    requires a & 0xFF000000 == 0
    ensures Steps(a, 8) == a << 8
  {
    MaskedStepsShift(a, 0xFF000000, 8);
    EightShifts(a);
  }

  lemma {:induction false} MaskedStepsShift(x: bv32, mask: bv32, n: nat)
    requires x & mask == 0 && BitsOf(mask, n) == seq(n, i => true)
    ensures Steps(x, n) == ShiftedBy(x, n)
    decreases n
  {
    if n > 0 {
      assert BitsOf(mask, n)[0] && BitsOf(mask, n)[1..] == BitsOf(mask << 1, n - 1);
      TopAndRest(x, mask);
      MaskedStepsShift(x << 1, mask << 1, n - 1);
    }
  }

  lemma TopByte(val: bv32, b: bv8)
    ensures val ^ ((b as bv32) << 24) == ((Index(val, b) as bv32) << 24) ^ (val & 0x00FFFFFF)
  {
  }

  lemma RestOf(val: bv32)
    ensures (val & 0x00FFFFFF) & 0xFF000000 == 0 && (val & 0x00FFFFFF) << 8 == val << 8
  {
  }

  /** The bits of a byte at the top of a word. */
  lemma BitsOfTopByte(b: bv8)
    ensures ToBits((b as bv32) << 24) == ByteBits(b) + Zeros(24)
  {
    BitsOfByteShift((b as bv32) << 24);
    BitsOfZero(24);
    TopByteOut(b);
  }

  lemma TopByteOut(b: bv8)
    ensures ((b as bv32) << 24) << 8 == 0
  {
  }

  /** A table step takes the top byte and the rest of the register eight steps further. */
  lemma TableStepIsSum(val: bv32, b: bv8) returns (low: bv32, high: bv32)
    ensures TableStep(val, b) == low ^ high
    ensures ToBits(low) == Serial(ToBits(val & 0x00FFFFFF), Zeros(8))
    ensures ToBits(high) == Serial(ToBits((Index(val, b) as bv32) << 24), Zeros(8))
  {
    low, high := val << 8, Table(Index(val, b));
    EightStepsOfRest(val);
    EightStepsOfIndex(Index(val, b));
  }

  lemma EightStepsOfRest(val: bv32)
    ensures ToBits(val << 8) == Serial(ToBits(val & 0x00FFFFFF), Zeros(8))
  {
    RestOf(val);
    LowBitsMoveUp(val & 0x00FFFFFF);
    StepsOnBits(val & 0x00FFFFFF, 8);
  }

  lemma EightStepsOfIndex(i: bv8)
    ensures ToBits(Table(i)) == Serial(ToBits((i as bv32) << 24), Zeros(8))
  {
    TableIsEightSteps(i);
    StepsOnBits((i as bv32) << 24, 8);
  }

  /** The two halves of the register move on independently. */
  lemma HalvesMoveOn(low: seq<bool>, high: seq<bool>, r: seq<bool>, a: seq<bool>)
    requires |low| == |high| == |r| == 32 && |a| == 8 && Add(high, low) == Add(r, a)
    ensures Add(Serial(low, Zeros(8)), Serial(high, Zeros(8))) == Serial(r, a)
  {
    SerialIsLinear(low, high, Zeros(8), Zeros(8));
    AddSelf(Zeros(8));
    AddSwaps(low, high);
    MessageEntersAtFront(r, a);
  }

  lemma ByteOnBits(val: bv32, b: bv8)
    ensures Add(ToBits((Index(val, b) as bv32) << 24), ToBits(val & 0x00FFFFFF)) == Add(ToBits(val), ByteBits(b))
  {
    TopByte(val, b);
    SameSums(val, b, (Index(val, b) as bv32) << 24, val & 0x00FFFFFF);
  }

  lemma SameSums(val: bv32, b: bv8, high: bv32, rest: bv32)
    requires val ^ ((b as bv32) << 24) == high ^ rest
    ensures Add(ToBits(high), ToBits(rest)) == Add(ToBits(val), ByteBits(b))
  {
    var top := (b as bv32) << 24;
    SumOnBits(high, rest);
    SumOnBits(val, top);
    BitsOfTopByte(b);
    AddShort(ToBits(val), ByteBits(b), 24);
  }

  /** Looking up the table is feeding the register with the bits of the byte. */
  lemma TableStepOnBits(val: bv32, b: bv8)
    ensures ToBits(TableStep(val, b)) == Serial(ToBits(val), ByteBits(b))
  {
    var low, high := TableStepIsSum(val, b);
    SumOnBits(low, high);
    ByteOnBits(val, b);
    HalvesMoveOn(ToBits(val & 0x00FFFFFF), ToBits((Index(val, b) as bv32) << 24), ToBits(val), ByteBits(b));
  }

  lemma AddSwaps(d: seq<bool>, e: seq<bool>)
    requires |d| == |e|
    ensures Add(d, e) == Add(e, d)
  {
  }

  lemma AddShort(d: seq<bool>, a: seq<bool>, n: nat)
    requires |d| == |a| + n
    ensures Add(d, a + Zeros(n)) == Add(d, a)
  {
  }

  /** For every start value and every string, the table loop is the bit-serial register. */
  lemma {:induction false} TableLoopIsSerial(start: bv32, s: seq<bv8>)
    ensures ToBits(TableLoop(start, s)) == Serial(ToBits(start), Bits(s))
    decreases |s|
  {
    if s != [] {
      var t, b := s[..|s| - 1], s[|s| - 1];
      TableLoopIsSerial(start, t);
      SerialAppend(ToBits(start), Bits(t), ByteBits(b));
      TableStepOnBits(TableLoop(start, t), b);
    }
  }

  /** For every start value and every string, the table loop leaves the remainder of the polynomial division. */
  lemma TableLoopIsDivision(start: bv32, s: seq<bv8>)
    ensures ToBits(TableLoop(start, s)) == Remainder(Augmented(ToBits(start), Bits(s)))
  {
    TableLoopIsSerial(start, s);
    SerialIsDivision(ToBits(start), Bits(s));
  }

  // ---------------------------------------------------------------- the check of a section

  function TopByteOf(w: bv32): (b: bv8) {
    ((w >> 24) & 0xFF) as bv8
  }

  /** The four bytes of a word, the most significant first. */
  function BigEndian(w: bv32): (s: seq<bv8>)
    ensures |s| == 4
  {
    [TopByteOf(w), TopByteOf(w << 8), TopByteOf((w << 8) << 8), TopByteOf(((w << 8) << 8) << 8)]
  }

  lemma TopByteBits(w: bv32)
    ensures BitsOf(w, 8) == ByteBits(TopByteOf(w))
  {
    TopByteMatches(w);
    SameTopByte(w, TopByteOf(w));
  }

  lemma TopByteMatches(w: bv32)
    ensures (w ^ ((TopByteOf(w) as bv32) << 24)) & 0xFF000000 == 0
  {
  }

  lemma SameTopByte(w: bv32, b: bv8)
    requires (w ^ ((b as bv32) << 24)) & 0xFF000000 == 0
    ensures BitsOf(w, 8) == ByteBits(b)
  {
    var x := w ^ ((b as bv32) << 24);
    BitsOfXor(w, (b as bv32) << 24, 8);
    ClearTopByte(x);
    AddsToZero(BitsOf(w, 8), ByteBits(b));
  }

  lemma ClearTopByte(x: bv32)
    requires x & 0xFF000000 == 0
    ensures BitsOf(x, 8) == Zeros(8)
  {
    MaskedBitsAreClear(x, 0xFF000000, 8);
  }

  lemma {:induction false} MaskedBitsAreClear(x: bv32, mask: bv32, n: nat)
    requires x & mask == 0 && BitsOf(mask, n) == seq(n, i => true)
    ensures BitsOf(x, n) == Zeros(n)
    decreases n
  {
    if n > 0 {
      assert BitsOf(mask, n)[0] && BitsOf(mask, n)[1..] == BitsOf(mask << 1, n - 1);
      TopAndRest(x, mask);
      MaskedBitsAreClear(x << 1, mask << 1, n - 1);
    }
  }

  lemma TopAndRest(x: bv32, mask: bv32)
    requires x & mask == 0
    ensures (x << 1) & (mask << 1) == 0 && (Top(mask) ==> !Top(x))
  {
  }

  lemma BitsOfBigEndian(w: bv32)
    ensures Bits(BigEndian(w)) == ToBits(w)
  {
    TopByteBits(w);
    TopByteBits(w << 8);
    TopByteBits((w << 8) << 8);
    TopByteBits(((w << 8) << 8) << 8);
    FourBytes(w);
    BitsOfFour(BigEndian(w));
  }

  lemma BitsOfFour(s: seq<bv8>)
    requires |s| == 4
    ensures Bits(s) == ByteBits(s[0]) + (ByteBits(s[1]) + (ByteBits(s[2]) + ByteBits(s[3])))
  {
    var s2, s3 := [s[2]] + [s[3]], [s[1]] + ([s[2]] + [s[3]]);
    assert s == [s[0]] + s3;
    BitsAppend([s[0]], s3);
    BitsAppend([s[1]], s2);
    BitsAppend([s[2]], [s[3]]);
    BitsOfOne(s[0]);
    BitsOfOne(s[1]);
    BitsOfOne(s[2]);
    BitsOfOne(s[3]);
  }

  lemma BitsOfOne(b: bv8)
    ensures Bits([b]) == ByteBits(b)
  {
    assert [b][..0] == [];
  }

  lemma {:induction false} BitsAppend(a: seq<bv8>, b: seq<bv8>)
    ensures Bits(a + b) == Bits(a) + Bits(b)
    decreases |b|
  {
    if b == [] {
      assert a + b == a;
    } else {
      var front, last := b[..|b| - 1], b[|b| - 1];
      BitsAppend(a, front);
      PushBoth(a, front, last);
      SplitLast(a, b);
    }
  }

  lemma SplitLast(a: seq<bv8>, b: seq<bv8>)
    requires b != []
    ensures a + b == (a + b[..|b| - 1]) + [b[|b| - 1]] && b == b[..|b| - 1] + [b[|b| - 1]]
  {
  }

  lemma PushBoth(a: seq<bv8>, front: seq<bv8>, last: bv8)
    requires Bits(a + front) == Bits(a) + Bits(front)
    ensures Bits((a + front) + [last]) == Bits(a) + Bits(front + [last])
  {
    BitsPush(a + front, last);
    BitsPush(front, last);
    Associative(Bits(a), Bits(front), ByteBits(last));
  }

  lemma BitsPush(s: seq<bv8>, b: bv8)
    ensures Bits(s + [b]) == Bits(s) + ByteBits(b)
  {
    assert (s + [b])[..|s|] == s;
  }

  lemma BitsOfZeroWord()
    ensures ToBits(0) == Zeros(32)
  {
    BitsOfZero(32);
  }

  lemma BitsOfStart()
    ensures ToBits(0xFFFFFFFF)[31]
  {
    SplitBits(0xFFFFFFFF, 31, 1);
    ShiftsAdd(0xFFFFFFFF, 24, 7);
    ShiftsAdd(0xFFFFFFFF, 16, 8);
    ShiftsAdd(0xFFFFFFFF, 8, 8);
    EightShifts(0xFFFFFFFF);
    EightShifts(0xFFFFFF00);
    EightShifts(0xFFFF0000);
    assert ShiftedBy(0xFF000000, 7) == 0x80000000;
  }

  /** The check value with which a section is accepted. */
  predicate Passes(data: seq<bv8>) {
    TableLoop(0xFFFFFFFF, data) == 0
  }

  lemma PassesOnBits(data: seq<bv8>)
    ensures Passes(data) <==> Serial(ToBits(0xFFFFFFFF), Bits(data)) == Zeros(32)
  {
    var c := TableLoop(0xFFFFFFFF, data);
    BitsOfZeroWord();
    TableLoopIsSerial(0xFFFFFFFF, data);
    if ToBits(c) == ToBits(0) {
      BitsAreInjective(c, 0);
    }
  }

  lemma ShortSectionsFail(data: seq<bv8>)
    requires |data| < 4
    ensures !Passes(data)
  {
    PassesOnBits(data);
    ZeroResidue(ToBits(0xFFFFFFFF), Bits(data));
    BitsOfStart();
  }

  lemma ResidueIsTheCrc(body: seq<bv8>, crc: seq<bv8>)
    requires |crc| == 4
    ensures Passes(body + crc) <==> crc == BigEndian(TableLoop(0xFFFFFFFF, body))
  {
    var start, c := ToBits(0xFFFFFFFF), TableLoop(0xFFFFFFFF, body);
    PassesOnBits(body + crc);
    BitsAppend(body, crc);
    SerialAppend(start, Bits(body), Bits(crc));
    TableLoopIsSerial(0xFFFFFFFF, body);
    ZeroResidue(ToBits(c), Bits(crc));
    assert Bits(crc) + Zeros(0) == Bits(crc);
    BitsOfBigEndian(c);
    if ToBits(c) == Bits(crc) {
      BytesAreInjective(crc, BigEndian(c));
    }
  }

  /** A section passes exactly if its last four bytes are the big-endian CRC of everything before them. */
  lemma PassesWithItsCrc(data: seq<bv8>)
    ensures Passes(data) <==> |data| >= 4 && data[|data| - 4..] == BigEndian(TableLoop(0xFFFFFFFF, data[..|data| - 4]))
  {
    if |data| < 4 {
      ShortSectionsFail(data);
    } else {
      assert data == data[..|data| - 4] + data[|data| - 4..];
      ResidueIsTheCrc(data[..|data| - 4], data[|data| - 4..]);
    }
  }

  /** eDVBSectionReader::data: what was read is handed on unless the read or the check fails. */
  method SectionRead(read: Option<seq<bv8>>, checkcrc: bool, active: bool) returns (delivered: bool)
    ensures delivered <==> active && read.Some? && (checkcrc ==>
      var data := read.value;
      |data| >= 4 && data[|data| - 4..] == BigEndian(TableLoop(0xFFFFFFFF, data[..|data| - 4])))
  {
    if read.None? {
      return false;
    }
    var data := read.value;
    PassesWithItsCrc(data);
    if checkcrc {
      var c := Crc32(0xFFFFFFFF, data);
      if c != 0 {
        return false;
      }
    }
    return active;
  }

  /** No two accepted sections differ within a burst of 32 bits only. */
  lemma BurstIsDetected(a: seq<bv8>, b: seq<bv8>, k: nat)
    requires |a| == |b| && Passes(a) && Passes(b)
    requires forall i :: 0 <= i < 8 * |a| && !(k <= i < k + 32) ==> Bits(a)[i] == Bits(b)[i]
    ensures a == b
  {
    TableLoopIsSerial(0xFFFFFFFF, a);
    TableLoopIsSerial(0xFFFFFFFF, b);
    BurstInRegister(ToBits(0xFFFFFFFF), Bits(a), Bits(b), k);
    BytesAreInjective(a, b);
  }

  lemma BurstInRegister(r: seq<bool>, a: seq<bool>, b: seq<bool>, k: nat)
    requires |r| == 32 && |a| == |b|
    requires forall i :: 0 <= i < |a| && !(k <= i < k + 32) ==> a[i] == b[i]
    ensures Serial(r, a) == Serial(r, b) <==> a == b
  {
    if k < |a| {
      var n := if k + 32 < |a| then k + 32 else |a|;
      Cut(a, k, n);
      Cut(b, k, n);
      assert a[..k] == b[..k] && a[n..] == b[n..];
      SameBurstInside(r, a[..k], a[k..n], b[k..n], a[n..]);
    } else {
      assert a == b;
    }
  }

  lemma Cut(a: seq<bool>, k: nat, n: nat)
    requires k <= n <= |a|
    ensures a == a[..k] + (a[k..n] + a[n..])
  {
  }

  lemma SameBurstInside(r: seq<bool>, front: seq<bool>, x: seq<bool>, y: seq<bool>, back: seq<bool>)
    requires |r| == 32 && |x| == |y| <= 32
    ensures Serial(r, front + (x + back)) == Serial(r, front + (y + back)) <==> x == y
  {
    var t := Serial(r, front);
    SerialAppend(r, front, x + back);
    SerialAppend(r, front, y + back);
    SerialAppend(t, x, back);
    SerialAppend(t, y, back);
    if Serial(Serial(t, x), back) == Serial(Serial(t, y), back) {
      SerialIsInjective(Serial(t, x), Serial(t, y), back);
      SameBurst(t, x, y);
    }
  }

  lemma SameBurst(t: seq<bool>, x: seq<bool>, y: seq<bool>)
    requires |t| == 32 && |x| == |y| <= 32
    ensures Serial(t, x) == Serial(t, y) <==> x == y
  {
    MessageEntersAtFront(t, x);
    MessageEntersAtFront(t, y);
    if Serial(t, x) == Serial(t, y) {
      SerialIsInjective(Add(t, x), Add(t, y), Zeros(|x|));
      SameSum(t, x, y);
    }
  }

  lemma SameSum(r: seq<bool>, x: seq<bool>, y: seq<bool>)
    requires |x| == |y| <= |r| && Add(r, x) == Add(r, y)
    ensures x == y
  {
    forall i | 0 <= i < |x|
      ensures x[i] == y[i]
    {
      assert Add(r, x)[i] == Add(r, y)[i];
    }
  }

  lemma {:induction false} BytesAreInjective(a: seq<bv8>, b: seq<bv8>)
    requires |a| == |b|
    ensures Bits(a) == Bits(b) <==> a == b
    decreases |a|
  {
    if a != [] && Bits(a) == Bits(b) {
      var n := |a| - 1;
      assert Bits(a[..n]) == Bits(b[..n]) && ByteBits(a[n]) == ByteBits(b[n]) by {
        LastByte(a);
        LastByte(b);
      }
      BytesAreInjective(a[..n], b[..n]);
      ByteIsInjective(a[n], b[n]);
      SameByLast(a, b);
    }
  }

  lemma SameByLast(a: seq<bv8>, b: seq<bv8>)
    requires |a| == |b| > 0 && a[..|a| - 1] == b[..|b| - 1] && a[|a| - 1] == b[|b| - 1]
    ensures a == b
  {
    assert a == a[..|a| - 1] + [a[|a| - 1]] && b == b[..|b| - 1] + [b[|b| - 1]];
  }

  lemma LastByte(a: seq<bv8>)
    requires a != []
    ensures Bits(a)[..8 * (|a| - 1)] == Bits(a[..|a| - 1]) && Bits(a)[8 * (|a| - 1)..] == ByteBits(a[|a| - 1])
  {
  }

  lemma ByteIsInjective(a: bv8, b: bv8)
    requires ByteBits(a) == ByteBits(b)
    ensures a == b
  {
    BitsOfTopByte(a);
    BitsOfTopByte(b);
    BitsAreInjective((a as bv32) << 24, (b as bv32) << 24);
    SameByte(a, b);
  }

  lemma SameByte(a: bv8, b: bv8)
    requires (a as bv32) << 24 == (b as bv32) << 24
    ensures a == b
  {
  }
}
