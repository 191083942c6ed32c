/** How the memory simulator splits a physical address into channel, rank, bank, row and column
    (`sim/DRAMSim2/AddressMapping.cpp`). */
module AddressMapping {
  import opened Params
  import opened Powers

  const UINT_RANGE := 0x1_0000_0000

  function ShiftRight(x: nat, n: nat): nat { if n == 0 then x else ShiftRight(x / 2, n - 1) }

  function ShiftLeft(x: nat, n: nat): nat { if n == 0 then x else 2 * ShiftLeft(x, n - 1) }

  function Xor(x: nat, y: nat): nat {
    if x == 0 && y == 0 then 0 else 2 * Xor(x / 2, y / 2) + if x % 2 == y % 2 then 0 else 1
  }

  /** The low n bits of x. */
  function Low(x: nat, n: nat): (r: nat)
    ensures r < Pow2(n)
  { if n == 0 then 0 else 2 * Low(x / 2, n - 1) + x % 2 }

  lemma {:induction false} XorSelf(x: nat)
    ensures Xor(x, x) == 0
  {
    if x != 0 {
      XorSelf(x / 2);
    }
  }

  lemma XorDoubled(x: nat, y: nat)
    ensures Xor(x, 2 * y) == 2 * Xor(x / 2, y) + x % 2
  {}

  lemma ClearedStep(x: nat, n: nat)
    requires n != 0
    ensures ShiftLeft(ShiftRight(x, n), n) == 2 * ShiftLeft(ShiftRight(x / 2, n - 1), n - 1)
  {}

  /** The identity behind every step of the mapping: clearing the low n bits and taking the exclusive or
      with the original leaves exactly those bits. */
  lemma {:induction false} XorKeepsLowBits(x: nat, n: nat)
    ensures Xor(x, ShiftLeft(ShiftRight(x, n), n)) == Low(x, n)
  {
    if n == 0 {
      XorSelf(x);
    } else {
      XorKeepsLowBits(x / 2, n - 1);
      ClearedStep(x, n);
      XorDoubled(x, ShiftLeft(ShiftRight(x / 2, n - 1), n - 1));
    }
  }

  /** The high bits and the low bits of a number determine it. */
  lemma {:induction false} HighAndLow(high: nat, low: nat, n: nat)
    requires low < Pow2(n)
    ensures ShiftRight(high * Pow2(n) + low, n) == high && Low(high * Pow2(n) + low, n) == low
  {
    if n != 0 {
      var x := high * Pow2(n) + low;
      assert high * Pow2(n) == 2 * (high * Pow2(n - 1));
      HighAndLow(high, low / 2, n - 1);
      assert x / 2 == high * Pow2(n - 1) + low / 2;
    }
  }

  lemma {:induction false} ShiftLeftIsProduct(x: nat, n: nat)
    ensures ShiftLeft(x, n) == x * Pow2(n)
  {
    if n != 0 {
      ShiftLeftIsProduct(x, n - 1);
    }
  }

  lemma {:induction false} ShiftTwice(x: nat, m: nat, n: nat)
    ensures ShiftRight(ShiftRight(x, m), n) == ShiftRight(x, m + n)
  {
    if m != 0 {
      ShiftTwice(x / 2, m - 1, n);
    }
  }

  lemma {:induction false} LowBits(x: nat, n: nat, m: nat)
    ensures ShiftLeft(Low(ShiftRight(x, n), m), n) + Low(x, n) == Low(x, m + n)
  {
    if n != 0 {
      LowBits(x / 2, n - 1, m);
      assert m + n - 1 == m + (n - 1);
    }
  }

  lemma {:induction false} NothingLeft(x: nat, n: nat)
    ensures ShiftRight(x, n) == 0 <==> x < Pow2(n)
  {
    if n != 0 {
      NothingLeft(x / 2, n - 1);
    }
  }

  /** Shifting right and taking low bits, as arithmetic. */
  lemma {:induction false} ShiftRightIsQuotient(x: nat, n: nat)
    ensures ShiftRight(x, n) == x / Pow2(n) && Low(x, n) == x % Pow2(n)
  {
    if n != 0 {
      ShiftRightIsQuotient(x / 2, n - 1);
      HalfDivides(x, Pow2(n - 1));
    }
  }

  lemma HalfDivides(x: nat, d: nat)
    requires 0 < d
    ensures x / (2 * d) == x / 2 / d && x % (2 * d) == 2 * (x / 2 % d) + x % 2
  {
    var q, r := x / 2 / d, x / 2 % d;
    assert x / 2 == q * d + r;
    assert x == q * (2 * d) + (2 * r + x % 2);
    DivModUnique(x, 2 * d, q, 2 * r + x % 2);
  }

  /** The number in the `width` bits of x above the lowest `below`. */
  function Digit(x: int): (nat, nat) -> int { (below: nat, width: nat) => x / Pow2(below) % Pow2(width) }

  // ---- fields and layouts ----

  datatype Field = Chan | Rank | Bank | Row | Col

  datatype Location = Location(chan: nat, rank: nat, bank: nat, row: nat, col: nat) {
    function Get(f: Field): nat {
      match f
      case Chan => chan
      case Rank => rank
      case Bank => bank
      case Row => row
      case Col => col
    }
  }

  datatype Widths = Widths(chan: nat, rank: nat, bank: nat, row: nat, col: nat, colLow: nat, byteOffset: nat) {
    /** Every width is the logarithm of a 32-bit count; the low column bits are part of the column. */
    predicate Ok() { chan <= 32 && rank <= 32 && bank <= 32 && row <= 32 && col <= 32 && colLow <= col }

    function Of(f: Field): nat
      requires Ok()
    {
      match f
      case Chan => chan
      case Rank => rank
      case Bank => bank
      case Row => row
      case Col => col - colLow
    }

    predicate InRange(loc: Location)
      requires Ok()
    { forall f: Field :: loc.Get(f) < Pow2(Of(f)) }

    /** Address bits below the mapped ones. */
    function Ignored(): nat { byteOffset + colLow }
  }

  /** The fields of a scheme from the most to the least significant. */
  function Order(scheme: int): (order: seq<Field>)
    requires 1 <= scheme <= 7
    ensures |order| == 5 && Distinct(order)
    ensures Chan in order && Rank in order && Bank in order && Row in order && Col in order
  {
    if scheme == 1 then [Chan, Rank, Row, Col, Bank]
    else if scheme == 2 then [Chan, Row, Col, Bank, Rank]
    else if scheme == 3 then [Chan, Rank, Bank, Col, Row]
    else if scheme == 4 then [Chan, Rank, Bank, Row, Col]
    else if scheme == 5 then [Chan, Row, Col, Rank, Bank]
    else if scheme == 6 then [Chan, Row, Bank, Rank, Col]
    else [Row, Col, Rank, Bank, Chan]
  }

  lemma EveryField(scheme: int, f: Field)
    requires 1 <= scheme <= 7
    ensures f in Order(scheme)
  {
    match f {
      case Chan =>
      case Rank =>
      case Bank =>
      case Row =>
      case Col =>
    }
  }

  predicate Distinct(order: seq<Field>) { forall i, j :: 0 <= i < j < |order| ==> order[i] != order[j] }

  function TotalWidth(order: seq<Field>, w: Widths): nat
    requires w.Ok()
  { if order == [] then 0 else TotalWidth(order[..|order| - 1], w) + w.Of(order[|order| - 1]) }

  /** The value of field f in the bits x laid out by `order`. */
  function Extract(x: nat, order: seq<Field>, w: Widths, f: Field): nat
    requires w.Ok()
    decreases |order|
  {
    if order == [] then 0
    else
      var last := order[|order| - 1];
      if last == f then Low(x, w.Of(f)) else Extract(ShiftRight(x, w.Of(last)), order[..|order| - 1], w, f)
  }

  /** The bits that hold the fields of `loc` laid out by `order`: the inverse of the mapping. */
  function Pack(loc: Location, order: seq<Field>, w: Widths): nat
    requires w.Ok()
  {
    if order == [] then 0
    else
      var last := order[|order| - 1];
      Pack(loc, order[..|order| - 1], w) * Pow2(w.Of(last)) + loc.Get(last)
  }

  function Located(x: nat, order: seq<Field>, w: Widths): Location
    requires w.Ok()
  {
    Location(Extract(x, order, w, Chan), Extract(x, order, w, Rank), Extract(x, order, w, Bank),
             Extract(x, order, w, Row), Extract(x, order, w, Col))
  }

  lemma {:induction false} ExtractInRange(x: nat, order: seq<Field>, w: Widths, f: Field)
    requires w.Ok()
    ensures Extract(x, order, w, f) < Pow2(w.Of(f))
    decreases |order|
  {
    if order != [] && order[|order| - 1] != f {
      ExtractInRange(ShiftRight(x, w.Of(order[|order| - 1])), order[..|order| - 1], w, f);
    }
  }

  predicate Agrees(loc: Location, x: nat, order: seq<Field>, w: Widths, f: Field)
    requires w.Ok()
  { loc.Get(f) == Extract(x, order, w, f) }

  /** Packing what was extracted gives the low bits back. */
  lemma {:induction false} PackExtract(loc: Location, x: nat, order: seq<Field>, w: Widths)
    requires w.Ok() && Distinct(order)
    requires forall k :: 0 <= k < |order| ==> Agrees(loc, x, order, w, order[k])
    ensures Pack(loc, order, w) == Low(x, TotalWidth(order, w))
    decreases |order|
  {
    if order != [] {
      var last, rest := order[|order| - 1], order[..|order| - 1];
      var high := ShiftRight(x, w.Of(last));
      assert Agrees(loc, x, order, w, last);
      forall k | 0 <= k < |rest| ensures Agrees(loc, high, rest, w, rest[k]) {
        assert Agrees(loc, x, order, w, order[k]);
      }
      PackExtract(loc, high, rest, w);
      LowBits(x, w.Of(last), TotalWidth(rest, w));
      ShiftLeftIsProduct(Pack(loc, rest, w), w.Of(last));
    }
  }

  /** Extracting from what was packed gives every field back. */
  lemma {:induction false} ExtractPack(loc: Location, order: seq<Field>, w: Widths, f: Field)
    requires w.Ok() && w.InRange(loc) && Distinct(order) && f in order
    ensures Extract(Pack(loc, order, w), order, w, f) == loc.Get(f)
  {
    var last, rest := order[|order| - 1], order[..|order| - 1];
    HighAndLow(Pack(loc, rest, w), loc.Get(last), w.Of(last));
    if last != f {
      ExtractPack(loc, rest, w, f);
    }
  }

  lemma {:induction false} PackBound(loc: Location, order: seq<Field>, w: Widths)
    requires w.Ok() && w.InRange(loc)
    ensures Pack(loc, order, w) < Pow2(TotalWidth(order, w))
  {
    if order != [] {
      var last, rest := order[|order| - 1], order[..|order| - 1];
      PackBound(loc, rest, w);
      Pow2Sum(TotalWidth(rest, w), w.Of(last));
      RowMajorBound(Pow2(TotalWidth(rest, w)), Pow2(w.Of(last)), Pack(loc, rest, w), loc.Get(last));
    }
  }

  // ---- the mapping ----

  lemma UintRange()
    ensures Pow2(32) == UINT_RANGE
  {
    Pow2Sum(16, 16);
    Pow2Sum(8, 8);
    assert Pow2(8) == 256;
    assert Pow2(16) == 65536;
  }

  /** The bits the mapping looks at. */
  function Shifted(physicalAddress: nat, w: Widths): nat {
    ShiftRight(ShiftRight(physicalAddress, w.byteOffset), w.colLow)
  }

  /** One step: the low `width` bits become a field, a 32-bit value, and the rest is mapped further. */
  method TakeField(physicalAddress: nat, width: nat) returns (rest: nat, field: nat)
    requires width <= 32
    ensures rest == ShiftRight(physicalAddress, width) && field == Low(physicalAddress, width)
  {
    var tempA := physicalAddress;
    rest := ShiftRight(physicalAddress, width);
    var tempB := ShiftLeft(rest, width);
    field := Xor(tempA, tempB) % UINT_RANGE;
    StepTakesLowBits(physicalAddress, width);
  }

  lemma StepTakesLowBits(x: nat, n: nat)
    requires n <= 32
    ensures Xor(x, ShiftLeft(ShiftRight(x, n), n)) % UINT_RANGE == Low(x, n)
  {
    XorKeepsLowBits(x, n);
    FitsUint(Low(x, n), n);
  }

  lemma FitsUint(x: nat, n: nat)
    requires n <= 32 && x < Pow2(n)
    ensures x % UINT_RANGE == x
  {
    Pow2Mono(n, 32);
    UintRange();
  }

  /** Taking one field off a layout. */
  lemma Peel(x: nat, order: seq<Field>, w: Widths, f: Field)
    requires w.Ok() && order != []
    ensures var n := |order| - 1;
            Extract(x, order, w, f) == if order[n] == f then Low(x, w.Of(f))
              else Extract(ShiftRight(x, w.Of(order[n])), order[..n], w, f)
  {}

  /** The five fields of a layout, taken from the least significant one upwards. */
  lemma FiveFields(x: nat, order: seq<Field>, w: Widths)
    requires w.Ok() && |order| == 5 && Distinct(order)
    ensures var x1 := ShiftRight(x, w.Of(order[4]));
            var x2 := ShiftRight(x1, w.Of(order[3]));
            var x3 := ShiftRight(x2, w.Of(order[2]));
            var x4 := ShiftRight(x3, w.Of(order[1]));
            && Extract(x, order, w, order[4]) == Low(x, w.Of(order[4]))
            && Extract(x, order, w, order[3]) == Low(x1, w.Of(order[3]))
            && Extract(x, order, w, order[2]) == Low(x2, w.Of(order[2]))
            && Extract(x, order, w, order[1]) == Low(x3, w.Of(order[1]))
            && Extract(x, order, w, order[0]) == Low(x4, w.Of(order[0]))
  {
    var x1 := ShiftRight(x, w.Of(order[4]));
    var x2 := ShiftRight(x1, w.Of(order[3]));
    var x3 := ShiftRight(x2, w.Of(order[2]));
    var o4, o3, o2, o1 := order[..4], order[..3], order[..2], order[..1];
    assert o4[..3] == o3 && o3[..2] == o2 && o2[..1] == o1;
    var x4 := ShiftRight(x3, w.Of(order[1]));
    forall k | 0 <= k < 5 ensures Extract(x, order, w, order[k])
      == Low(if k == 4 then x else if k == 3 then x1 else if k == 2 then x2 else if k == 1 then x3
             else x4, w.Of(order[k]))
    {
      Peel(x, order, w, order[k]);
      Peel(x1, o4, w, order[k]);
      Peel(x2, o3, w, order[k]);
      Peel(x3, o2, w, order[k]);
      Peel(x4, o1, w, order[k]);
    }
  }

  /** The same with one shift for each field. */
  lemma FiveShifts(x: nat, order: seq<Field>, w: Widths)
    requires w.Ok() && |order| == 5 && Distinct(order)
    ensures var w4, w3, w2, w1 := w.Of(order[4]), w.Of(order[3]), w.Of(order[2]), w.Of(order[1]);
            && Extract(x, order, w, order[4]) == Low(ShiftRight(x, 0), w4)
            && Extract(x, order, w, order[3]) == Low(ShiftRight(x, w4), w3)
            && Extract(x, order, w, order[2]) == Low(ShiftRight(x, w4 + w3), w2)
            && Extract(x, order, w, order[1]) == Low(ShiftRight(x, w4 + w3 + w2), w1)
            && Extract(x, order, w, order[0]) == Low(ShiftRight(x, w4 + w3 + w2 + w1), w.Of(order[0]))
  {
    FiveFields(x, order, w);
    var w4, w3, w2, w1 := w.Of(order[4]), w.Of(order[3]), w.Of(order[2]), w.Of(order[1]);
    ShiftTwice(x, w4, w3);
    ShiftTwice(x, w4 + w3, w2);
    ShiftTwice(x, w4 + w3 + w2, w1);
  }

  lemma LowIsDigit(x: nat, below: nat, width: nat)
    ensures Low(ShiftRight(x, below), width) == Digit(x)(below, width)
  {
    ShiftRightIsQuotient(x, below);
    ShiftRightIsQuotient(ShiftRight(x, below), width);
  }

  /** The five fields of each scheme as digits, from the least significant upwards, for the widths of
      channel, rank, bank, row and the high part of the column. */
  predicate FieldsOf(scheme: int, digit: (nat, nat) -> int, ch: nat, ra: nat, ba: nat, ro: nat, co: nat,
                     loc: Location) {
    && (scheme == 1 ==>
          && loc.bank == digit(0, ba) && loc.col == digit(ba, co) && loc.row == digit(ba + co, ro)
          && loc.rank == digit(ba + co + ro, ra) && loc.chan == digit(ba + co + ro + ra, ch))
    && (scheme == 2 ==>
          && loc.rank == digit(0, ra) && loc.bank == digit(ra, ba) && loc.col == digit(ra + ba, co)
          && loc.row == digit(ra + ba + co, ro) && loc.chan == digit(ra + ba + co + ro, ch))
    && (scheme == 3 ==>
          && loc.row == digit(0, ro) && loc.col == digit(ro, co) && loc.bank == digit(ro + co, ba)
          && loc.rank == digit(ro + co + ba, ra) && loc.chan == digit(ro + co + ba + ra, ch))
    && (scheme == 4 ==>
          && loc.col == digit(0, co) && loc.row == digit(co, ro) && loc.bank == digit(co + ro, ba)
          && loc.rank == digit(co + ro + ba, ra) && loc.chan == digit(co + ro + ba + ra, ch))
    && (scheme == 5 ==>
          && loc.bank == digit(0, ba) && loc.rank == digit(ba, ra) && loc.col == digit(ba + ra, co)
          && loc.row == digit(ba + ra + co, ro) && loc.chan == digit(ba + ra + co + ro, ch))
    && (scheme == 6 ==>
          && loc.col == digit(0, co) && loc.rank == digit(co, ra) && loc.bank == digit(co + ra, ba)
          && loc.row == digit(co + ra + ba, ro) && loc.chan == digit(co + ra + ba + ro, ch))
    && (scheme == 7 ==>
          && loc.chan == digit(0, ch) && loc.bank == digit(ch, ba) && loc.rank == digit(ch + ba, ra)
          && loc.col == digit(ch + ba + ra, co) && loc.row == digit(ch + ba + ra + co, ro))
  }

  /** The five fields of a location are the digits, in this order from the most significant. */
  predicate DigitsInOrder(loc: Location, digit: (nat, nat) -> int, order: seq<Field>, w: Widths)
    requires w.Ok() && |order| == 5
  {
    var w4, w3, w2, w1 := w.Of(order[4]), w.Of(order[3]), w.Of(order[2]), w.Of(order[1]);
    && loc.Get(order[4]) == digit(0, w4)
    && loc.Get(order[3]) == digit(w4, w3)
    && loc.Get(order[2]) == digit(w4 + w3, w2)
    && loc.Get(order[1]) == digit(w4 + w3 + w2, w1)
    && loc.Get(order[0]) == digit(w4 + w3 + w2 + w1, w.Of(order[0]))
  }

  lemma OrderOfScheme(scheme: int, digit: (nat, nat) -> int, w: Widths, loc: Location)
    requires w.Ok() && 1 <= scheme <= 7 && DigitsInOrder(loc, digit, Order(scheme), w)
    ensures FieldsOf(scheme, digit, w.chan, w.rank, w.bank, w.row, w.col - w.colLow, loc)
  {}

  lemma ShiftedIsQuotient(address: nat, w: Widths)
    ensures Shifted(address, w) == address / Pow2(w.byteOffset + w.colLow)
  {
    ShiftTwice(address, w.byteOffset, w.colLow);
    ShiftRightIsQuotient(address, w.byteOffset + w.colLow);
  }

  lemma LocatedAt(x: nat, order: seq<Field>, w: Widths, f: Field)
    requires w.Ok()
    ensures Located(x, order, w).Get(f) == Extract(x, order, w, f)
  {}

  /** digit is the function that reads the digits of x. */
  ghost predicate Reads(digit: (nat, nat) -> int, x: nat) {
    forall below: nat, width: nat :: digit(below, width) == Low(ShiftRight(x, below), width)
  }

  lemma DigitReads(x: nat)
    ensures Reads(Digit(x), x)
  {
    forall below: nat, width: nat ensures Digit(x)(below, width) == Low(ShiftRight(x, below), width) {
      LowIsDigit(x, below, width);
    }
  }

  lemma LocatedDigits(x: nat, order: seq<Field>, w: Widths, digit: (nat, nat) -> int)
    requires w.Ok() && |order| == 5 && Distinct(order) && Reads(digit, x)
    ensures DigitsInOrder(Located(x, order, w), digit, order, w)
  {
    FiveShifts(x, order, w);
    LocatedAt(x, order, w, order[0]);
    LocatedAt(x, order, w, order[1]);
    LocatedAt(x, order, w, order[2]);
    LocatedAt(x, order, w, order[3]);
    LocatedAt(x, order, w, order[4]);
  }

  lemma LocatedFields(scheme: int, x: nat, w: Widths, digit: (nat, nat) -> int)
    requires w.Ok() && 1 <= scheme <= 7 && Reads(digit, x)
    ensures FieldsOf(scheme, digit, w.chan, w.rank, w.bank, w.row, w.col - w.colLow, Located(x, Order(scheme), w))
  {
    LocatedDigits(x, Order(scheme), w, digit);
    OrderOfScheme(scheme, digit, w, Located(x, Order(scheme), w));
  }

  function Mapped(scheme: int, address: nat, w: Widths): Location
    requires w.Ok() && 1 <= scheme <= 7
  { Located(Shifted(address, w), Order(scheme), w) }

  /** The fields are the digits of the address without its byte offset and low column bits. */
  predicate MapsTo(scheme: int, address: nat, w: Widths, loc: Location)
    requires w.Ok()
  {
    FieldsOf(scheme, Digit(address / Pow2(w.byteOffset + w.colLow)), w.chan, w.rank, w.bank, w.row, w.col - w.colLow,
             loc)
  }

  lemma MappedDigits(scheme: int, address: nat, w: Widths)
    requires w.Ok() && 1 <= scheme <= 7
    ensures MapsTo(scheme, address, w, Mapped(scheme, address, w))
  {
    var x := Shifted(address, w);
    ShiftedIsQuotient(address, w);
    DigitReads(x);
    LocatedFields(scheme, x, w, Digit(x));
  }

  /** `addressMapping`: every field is the one the scheme's layout places there. An unknown scheme is the
      error exit. */
  method Map(scheme: int, address: nat, w: Widths) returns (r: Option<Location>)
    requires w.Ok()
    ensures r.Some? <==> 1 <= scheme <= 7
    ensures r.Some? ==> r.value == Mapped(scheme, address, w) && MapsTo(scheme, address, w, r.value)
  {
    var physicalAddress := ShiftRight(address, w.byteOffset);
    physicalAddress := ShiftRight(physicalAddress, w.colLow);
    r := MapBits(scheme, physicalAddress, w);
    if r.Some? {
      MappedDigits(scheme, address, w);
    }
  }

  lemma AgreesEverywhere(loc: Location, x: nat, order: seq<Field>, w: Widths)
    requires w.Ok() && forall k :: 0 <= k < |order| ==> Agrees(loc, x, order, w, order[k])
    requires Chan in order && Rank in order && Bank in order && Row in order && Col in order
    ensures loc == Located(x, order, w)
  {
    assert Agrees(loc, x, order, w, Chan) && Agrees(loc, x, order, w, Rank) && Agrees(loc, x, order, w, Bank);
    assert Agrees(loc, x, order, w, Row) && Agrees(loc, x, order, w, Col);
  }

  /** Taking the fields one after the other, the least significant first, gives the location. */
  lemma TakenInOrder(x: nat, order: seq<Field>, w: Widths, loc: Location)
    requires w.Ok() && |order| == 5 && Distinct(order)
    requires Chan in order && Rank in order && Bank in order && Row in order && Col in order
    requires var x1 := ShiftRight(x, w.Of(order[4]));
             var x2 := ShiftRight(x1, w.Of(order[3]));
             var x3 := ShiftRight(x2, w.Of(order[2]));
             var x4 := ShiftRight(x3, w.Of(order[1]));
             && loc.Get(order[4]) == Low(x, w.Of(order[4]))
             && loc.Get(order[3]) == Low(x1, w.Of(order[3]))
             && loc.Get(order[2]) == Low(x2, w.Of(order[2]))
             && loc.Get(order[1]) == Low(x3, w.Of(order[1]))
             && loc.Get(order[0]) == Low(x4, w.Of(order[0]))
    ensures loc == Located(x, order, w)
  {
    FiveFields(x, order, w);
    assert forall k :: 0 <= k < 5 ==> Agrees(loc, x, order, w, order[k]);
    AgreesEverywhere(loc, x, order, w);
  }

  /** The branches of the seven schemes, on the shifted address. */
  method MapBits(scheme: int, shifted: nat, w: Widths) returns (r: Option<Location>)
    requires w.Ok()
    ensures r.Some? <==> 1 <= scheme <= 7
    ensures r.Some? ==> r.value == Located(shifted, Order(scheme), w)
  {
    var physicalAddress := shifted;
    var colHighBitWidth := w.col - w.colLow;
    var chan, rank, bank, row, col;
    if scheme == 1 {
      physicalAddress, bank := TakeField(physicalAddress, w.bank);
      physicalAddress, col := TakeField(physicalAddress, colHighBitWidth);
      physicalAddress, row := TakeField(physicalAddress, w.row);
      physicalAddress, rank := TakeField(physicalAddress, w.rank);
      physicalAddress, chan := TakeField(physicalAddress, w.chan);
    } else if scheme == 2 {
      physicalAddress, rank := TakeField(physicalAddress, w.rank);
      physicalAddress, bank := TakeField(physicalAddress, w.bank);
      physicalAddress, col := TakeField(physicalAddress, colHighBitWidth);
      physicalAddress, row := TakeField(physicalAddress, w.row);
      physicalAddress, chan := TakeField(physicalAddress, w.chan);
    } else if scheme == 3 {
      physicalAddress, row := TakeField(physicalAddress, w.row);
      physicalAddress, col := TakeField(physicalAddress, colHighBitWidth);
      physicalAddress, bank := TakeField(physicalAddress, w.bank);
      physicalAddress, rank := TakeField(physicalAddress, w.rank);
      physicalAddress, chan := TakeField(physicalAddress, w.chan);
    } else if scheme == 4 {
      physicalAddress, col := TakeField(physicalAddress, colHighBitWidth);
      physicalAddress, row := TakeField(physicalAddress, w.row);
      physicalAddress, bank := TakeField(physicalAddress, w.bank);
      physicalAddress, rank := TakeField(physicalAddress, w.rank);
      physicalAddress, chan := TakeField(physicalAddress, w.chan);
    } else if scheme == 5 {
      physicalAddress, bank := TakeField(physicalAddress, w.bank);
      physicalAddress, rank := TakeField(physicalAddress, w.rank);
      physicalAddress, col := TakeField(physicalAddress, colHighBitWidth);
      physicalAddress, row := TakeField(physicalAddress, w.row);
      physicalAddress, chan := TakeField(physicalAddress, w.chan);
    } else if scheme == 6 {
      physicalAddress, col := TakeField(physicalAddress, colHighBitWidth);
      physicalAddress, rank := TakeField(physicalAddress, w.rank);
      physicalAddress, bank := TakeField(physicalAddress, w.bank);
      physicalAddress, row := TakeField(physicalAddress, w.row);
      physicalAddress, chan := TakeField(physicalAddress, w.chan);
    } else if scheme == 7 {
      physicalAddress, chan := TakeField(physicalAddress, w.chan);
      physicalAddress, bank := TakeField(physicalAddress, w.bank);
      physicalAddress, rank := TakeField(physicalAddress, w.rank);
      physicalAddress, col := TakeField(physicalAddress, colHighBitWidth);
      physicalAddress, row := TakeField(physicalAddress, w.row);
    } else {
      return None;
    }
    TakenInOrder(shifted, Order(scheme), w, Location(chan, rank, bank, row, col));
    return Some(Location(chan, rank, bank, row, col));
  }

  // ---- what the mapping guarantees, for every scheme, every width and every address ----

  /** The address bits that choose a location. */
  function MappedBits(scheme: int, address: nat, w: Widths): nat
    requires w.Ok() && 1 <= scheme <= 7
  { Low(Shifted(address, w), TotalWidth(Order(scheme), w)) }

  /** The address of a location. */
  function Address(scheme: int, loc: Location, w: Widths): nat
    requires w.Ok() && 1 <= scheme <= 7
  { ShiftLeft(Pack(loc, Order(scheme), w), w.Ignored()) }

  lemma FieldsInRange(scheme: int, address: nat, w: Widths)
    requires w.Ok() && 1 <= scheme <= 7
    ensures w.InRange(Mapped(scheme, address, w))
  {
    forall f: Field ensures Mapped(scheme, address, w).Get(f) < Pow2(w.Of(f)) {
      ExtractInRange(Shifted(address, w), Order(scheme), w, f);
    }
  }

  /** Packing the fields of an address gives its mapped bits. */
  lemma PackMapped(scheme: int, address: nat, w: Widths)
    requires w.Ok() && 1 <= scheme <= 7
    ensures Pack(Mapped(scheme, address, w), Order(scheme), w) == MappedBits(scheme, address, w)
  {
    PackExtract(Mapped(scheme, address, w), Shifted(address, w), Order(scheme), w);
  }

  lemma ShiftedAddress(x: nat, w: Widths)
    ensures Shifted(ShiftLeft(x, w.Ignored()), w) == x
  {
    ShiftLeftIsProduct(x, w.Ignored());
    ShiftTwice(ShiftLeft(x, w.Ignored()), w.byteOffset, w.colLow);
    HighAndLow(x, 0, w.Ignored());
  }

  /** `Address` is the inverse: every location in range is hit, by an address that fits the mapped width. */
  lemma MapAddress(scheme: int, loc: Location, w: Widths)
    requires w.Ok() && 1 <= scheme <= 7 && w.InRange(loc)
    ensures Mapped(scheme, Address(scheme, loc, w), w) == loc
    ensures Address(scheme, loc, w) < Pow2(TotalWidth(Order(scheme), w) + w.Ignored())
  {
    var order := Order(scheme);
    var x := Pack(loc, order, w);
    ShiftedAddress(x, w);
    forall f: Field ensures Extract(x, order, w, f) == loc.Get(f) {
      EveryField(scheme, f);
      ExtractPack(loc, order, w, f);
    }
    assert loc == Location(loc.Get(Chan), loc.Get(Rank), loc.Get(Bank), loc.Get(Row), loc.Get(Col));
    PackBound(loc, order, w);
    Pow2Sum(TotalWidth(order, w), w.Ignored());
    ShiftLeftIsProduct(x, w.Ignored());
    RowMajorBound(Pow2(TotalWidth(order, w)), Pow2(w.Ignored()), x, 0);
  }

  lemma AddressIsMappedBits(scheme: int, address: nat, w: Widths)
    requires w.Ok() && 1 <= scheme <= 7
    ensures Address(scheme, Mapped(scheme, address, w), w)
         == ShiftLeft(Low(Shifted(address, w), TotalWidth(Order(scheme), w)), w.Ignored())
  {
    PackMapped(scheme, address, w);
  }

  /** The other way round: mapping an address and packing the location gives the address back, but for
      its ignored low bits and the bits above the mapped ones. */
  lemma AddressMapped(scheme: int, address: nat, w: Widths)
    requires w.Ok() && 1 <= scheme <= 7
    ensures Address(scheme, Mapped(scheme, address, w), w) + Low(address, w.Ignored())
         == Low(address, TotalWidth(Order(scheme), w) + w.Ignored())
  {
    AddressIsMappedBits(scheme, address, w);
    ShiftTwice(address, w.byteOffset, w.colLow);
    LowBits(address, w.Ignored(), TotalWidth(Order(scheme), w));
  }

  /** Two addresses collide exactly when they agree on the mapped bits. */
  lemma CollideIffSameBits(scheme: int, a: nat, b: nat, w: Widths)
    requires w.Ok() && 1 <= scheme <= 7
    ensures Mapped(scheme, a, w) == Mapped(scheme, b, w) <==> MappedBits(scheme, a, w) == MappedBits(scheme, b, w)
  {
    PackMapped(scheme, a, w);
    PackMapped(scheme, b, w);
    OnlyMappedBitsMatter(scheme, a, w);
    OnlyMappedBitsMatter(scheme, b, w);
  }

  lemma OnlyMappedBitsMatter(scheme: int, a: nat, w: Widths)
    requires w.Ok() && 1 <= scheme <= 7
    ensures Mapped(scheme, a, w) == Located(MappedBits(scheme, a, w), Order(scheme), w)
  {
    var order, loc := Order(scheme), Mapped(scheme, a, w);
    PackMapped(scheme, a, w);
    FieldsInRange(scheme, a, w);
    forall f: Field ensures Extract(MappedBits(scheme, a, w), order, w, f) == loc.Get(f) {
      EveryField(scheme, f);
      ExtractPack(loc, order, w, f);
    }
    assert loc == Location(loc.Get(Chan), loc.Get(Rank), loc.Get(Bank), loc.Get(Row), loc.Get(Col));
  }

  /** The column a packet asks its bank for. The bank indexes a table of numCols columns with it and does not
      check: every mapped column is in the table exactly when numCols is a power of two or some low column
      bits are thrown away. The column width is the logarithm of numCols, rounded up. */
  lemma ColumnsInBankIff(scheme: int, w: Widths, numCols: nat)
    requires w.Ok() && 1 <= scheme <= 7 && 0 < numCols <= Pow2(w.col) && (w.col == 0 || Pow2(w.col - 1) < numCols)
    ensures (forall address: nat :: ColumnInBank(scheme, address, w, numCols)) <==>
              numCols == Pow2(w.col) || 0 < w.colLow
  {
    if numCols == Pow2(w.col) || 0 < w.colLow {
      forall address: nat ensures ColumnInBank(scheme, address, w, numCols) {
        FieldsInRange(scheme, address, w);
        assert Mapped(scheme, address, w).Get(Col) < Pow2(w.Of(Col));
        Pow2Mono(w.col - w.colLow, if 0 < w.colLow then w.col - 1 else w.col);
      }
    } else {
      var loc := Location(0, 0, 0, 0, numCols);
      MapAddress(scheme, loc, w);
      assert !ColumnInBank(scheme, Address(scheme, loc, w), w, numCols);
    }
  }

  predicate ColumnInBank(scheme: int, address: nat, w: Widths, numCols: nat)
    requires w.Ok() && 1 <= scheme <= 7
  { Mapped(scheme, address, w).col < numCols }

  /** `dramsim_log2`: how a width is computed from a count, rounding up. */
  method Log2(value: nat) returns (r: nat)
    requires value < UINT_RANGE
    ensures value <= Pow2(r) && (r == 0 || Pow2(r - 1) < value) && r <= 32
  {
    var logbase2: nat := 0;
    var v := value / 2;
    while v > 0
      invariant v == ShiftRight(value, logbase2 + 1)
      invariant logbase2 == 0 || Pow2(logbase2) <= value
      decreases v
    {
      NothingLeft(value, logbase2 + 1);
      ShiftTwice(value, logbase2 + 1, 1);
      v := v / 2;
      logbase2 := logbase2 + 1;
    }
    NothingLeft(value, logbase2 + 1);
    BigPowers(logbase2);
    if Pow2(logbase2) < value {
      logbase2 := logbase2 + 1;
    }
    r := logbase2;
  }

  lemma BigPowers(n: nat)
    ensures n >= 32 ==> Pow2(n) >= UINT_RANGE
  {
    UintRange();
    if n >= 32 {
      Pow2Mono(32, n);
    }
  }
}
