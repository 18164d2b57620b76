/** The wire protocol: the 67-byte packet header, the 16-byte items and their packed fields. */
module Protocol {
  import opened Bits
  import opened Sequences
  import opened Text

  const ORDER_BOOK: u8 := 0
  const TRADE_TICK: u8 := 1
  const INDEX_PRICE: u8 := 2
  const MARK_PRICE: u8 := 3
  const FUNDING_RATE: u8 := 4
  const LIQUIDATION: u8 := 5

  const HEADER_SIZE: nat := 67
  const ITEM_SIZE: nat := 16
  const NAME_SIZE: nat := 20
  const MAX_ITEMS: nat := 80
  const MAX_PACKET: nat := 1472

  const QUANTITY_MASK: nat := 0x7FFF_FFFF_FFFF_FFFF
  const FLAG_BIT: nat := 0x8000_0000_0000_0000
  const COUNT_MASK: nat := 0x7F
  const LAST_BIT: nat := 0x80

  // ----- Scaling -----

  const SCALE: real := 100000000.0

  /** A real number cut towards zero and kept inside the signed 64-bit range. */
  function TruncateToI64(x: real): i64 {
    var t := if x >= 0.0 then x.Floor else -((-x).Floor);
    if t < -TWO_63 then -TWO_63 else if t >= TWO_63 then TWO_63 - 1 else t
  }

  function Scaled(x: real): i64 {
    TruncateToI64(x * SCALE)
  }

  /** Scaling never reverses an order, and it keeps the sign. */
  lemma ScaledMonotone(x: real, y: real)
    requires x <= y
    ensures Scaled(x) <= Scaled(y)
    ensures x >= 0.0 ==> Scaled(x) >= 0
  {
    assert x * SCALE <= y * SCALE;
  }

  /** A scaled value is the value in units of 10^-8, cut towards zero; values outside the signed
      64-bit range become its ends. */
  lemma ScaledTruncates(x: real)
    ensures 0.0 <= x && x * 100000000.0 < TWO_63 as real ==>
              Scaled(x) as real <= x * 100000000.0 < Scaled(x) as real + 1.0
    ensures x < 0.0 && -(TWO_63 as real) <= x * 100000000.0 ==>
              Scaled(x) as real - 1.0 < x * 100000000.0 <= Scaled(x) as real
    ensures x * 100000000.0 >= TWO_63 as real ==> Scaled(x) == TWO_63 - 1
    ensures x * 100000000.0 < -(TWO_63 as real) ==> Scaled(x) == -TWO_63
  {
    var y := x * SCALE;
    if y >= 0.0 {
      assert y.Floor as real <= y < y.Floor as real + 1.0;
    } else {
      assert (-y).Floor as real <= -y < (-y).Floor as real + 1.0;
    }
  }

  // ----- Quantity with a flag in the top bit -----

  /** The quantity masked to 63 bits, with the top bit set for a raised flag. */
  function PackQuantity(quantity: i64, flag: bool): i64 {
    var masked := And(Pattern(quantity), QUANTITY_MASK);
    Signed(if flag then Or(masked, FLAG_BIT) else masked)
  }

  /** The liquidation item sets the flag without masking the quantity first. */
  function PackUnmasked(quantity: i64, flag: bool): i64 {
    Pow2At7And63();
    OrOneBit(Pattern(quantity), 63);
    Signed(if flag then Or(Pattern(quantity), FLAG_BIT) else Pattern(quantity))
  }

  predicate FlagOf(word: i64) {
    And(Pattern(word), FLAG_BIT) != 0
  }

  function QuantityOf(word: i64): i64 {
    Signed(And(Pattern(word), QUANTITY_MASK))
  }

  /** The flag is the sign of the word, the quantity its low 63 bits. */
  lemma ReadWord(word: i64)
    ensures FlagOf(word) <==> word < 0
    ensures QuantityOf(word) == if word < 0 then word + TWO_63 else word
  {
    hide And, Or, Pow2;
    Pow2At7And63();
    AndLowMask(Pattern(word), 63);
    AndOneBit(Pattern(word), 63);
  }

  lemma PackedWord(quantity: i64, flag: bool)
    ensures var low := if quantity < 0 then quantity + TWO_63 else quantity;
            PackQuantity(quantity, flag) == if flag then low - TWO_63 else low
  {
    hide And, Or, Pow2;
    Pow2At7And63();
    AndLowMask(Pattern(quantity), 63);
    OrOneBit(And(Pattern(quantity), QUANTITY_MASK), 63);
  }

  /** The flag always survives packing; the quantity exactly when it is not negative. */
  lemma PackReadBack(quantity: i64, flag: bool)
    ensures FlagOf(PackQuantity(quantity, flag)) == flag
    ensures QuantityOf(PackQuantity(quantity, flag)) == quantity <==> quantity >= 0
  {
    hide And, Or;
    PackedWord(quantity, flag);
    ReadWord(PackQuantity(quantity, flag));
  }

  /** Packing what was read gives back the word: the packing is onto. */
  lemma ReadPackBack(word: i64)
    ensures PackQuantity(QuantityOf(word), FlagOf(word)) == word
    ensures QuantityOf(word) >= 0
  {
    hide And, Or;
    ReadWord(word);
    PackedWord(QuantityOf(word), FlagOf(word));
  }

  /** Without the mask a negative quantity raises the flag by itself: the side is read back
      exactly when it was a sale or the quantity is not negative. */
  lemma UnmaskedReadBack(quantity: i64, flag: bool)
    ensures FlagOf(PackUnmasked(quantity, flag)) == flag <==> flag || quantity >= 0
    ensures QuantityOf(PackUnmasked(quantity, flag)) == quantity <==> quantity >= 0
    ensures quantity >= 0 ==> PackUnmasked(quantity, flag) == PackQuantity(quantity, flag)
    ensures quantity < 0 ==> PackUnmasked(quantity, flag) == quantity
  {
    hide And, Or, Pow2;
    Pow2At7And63();
    OrOneBit(Pattern(quantity), 63);
    PackedWord(quantity, flag);
    ReadWord(PackUnmasked(quantity, flag));
  }

  // ----- Items -----

  /** An order-book level or a trade on the wire; both have this layout. */
  datatype Item = Item(price: i64, quantityWithFlags: i64) {
    predicate Flag() { FlagOf(quantityWithFlags) }

    function Quantity(): i64 { QuantityOf(quantityWithFlags) }
  }

  function NewItem(price: real, quantity: real, flag: bool): Item {
    Item(Scaled(price), PackQuantity(Scaled(quantity), flag))
  }

  function ItemBytes(item: Item): (bytes: seq<u8>)
    ensures |bytes| == ITEM_SIZE
  {
    I64Bytes(item.price) + I64Bytes(item.quantityWithFlags)
  }

  function ItemOf(bytes: seq<u8>): Item
    requires |bytes| == ITEM_SIZE
  {
    Item(I64Of(bytes[..8]), I64Of(bytes[8..]))
  }

  /** Items and 16-byte blocks determine each other. */
  lemma ItemRoundTrip(item: Item, bytes: seq<u8>)
    requires |bytes| == ITEM_SIZE
    ensures ItemOf(ItemBytes(item)) == item
    ensures ItemBytes(ItemOf(bytes)) == bytes
  {
    WordRoundTrip(0, item.price, bytes[..8]);
    WordRoundTrip(0, item.quantityWithFlags, bytes[8..]);
    assert ItemBytes(item)[..8] == I64Bytes(item.price);
    assert ItemBytes(item)[8..] == I64Bytes(item.quantityWithFlags);
    assert bytes == bytes[..8] + bytes[8..];
  }

  /** Where the two words of an item are. */
  lemma ItemLayout(item: Item)
    ensures ItemBytes(item)[..8] == I64Bytes(item.price) && ItemBytes(item)[8..] == I64Bytes(item.quantityWithFlags)
  {
  }

  function ItemsBytes(items: seq<Item>): (bytes: seq<u8>)
    ensures |bytes| == ITEM_SIZE * |items|
  {
    if items == [] then [] else ItemBytes(items[0]) + ItemsBytes(items[1..])
  }

  lemma ItemsBytesAppend(a: seq<Item>, b: seq<Item>)
    ensures ItemsBytes(a + b) == ItemsBytes(a) + ItemsBytes(b)
  {
    if a == [] {
      assert a + b == b;
    } else {
      assert (a + b)[0] == a[0] && (a + b)[1..] == a[1..] + b;
      ItemsBytesAppend(a[1..], b);
    }
  }

  lemma ItemsBytesOne(item: Item)
    ensures ItemsBytes([item]) == ItemBytes(item)
  {
    assert ItemsBytes([item]) == ItemBytes(item) + ItemsBytes([]);
  }

  // ----- The byte that holds is_last and the item count -----

  function FlagsAndCount(isLast: bool, count: u8): u8 {
    var itemCount := And(if count < MAX_ITEMS then count else MAX_ITEMS, COUNT_MASK);
    if isLast then Or(itemCount, LAST_BIT) else itemCount
  }

  predicate IsLastOf(flags: u8) {
    And(flags, LAST_BIT) != 0
  }

  function CountOf(flags: u8): u8 {
    And(flags, COUNT_MASK)
  }

  lemma ReadFlags(flags: u8)
    ensures IsLastOf(flags) <==> flags >= LAST_BIT
    ensures CountOf(flags) == flags % LAST_BIT
  {
    hide And, Or, Pow2;
    Pow2At7And63();
    AndOneBit(flags, 7);
    AndLowMask(flags, 7);
  }

  lemma WrittenFlags(isLast: bool, count: u8)
    ensures var c := if count < MAX_ITEMS then count else MAX_ITEMS;
            FlagsAndCount(isLast, count) == if isLast then c + LAST_BIT else c
  {
    hide And, Or, Pow2;
    Pow2At7And63();
    var c := if count < MAX_ITEMS then count else MAX_ITEMS;
    AndLowMask(c, 7);
    OrOneBit(c, 7);
  }

  /** The last-packet flag is always read back; the count exactly when it is at most 80. */
  lemma FlagsReadBack(isLast: bool, count: u8)
    ensures IsLastOf(FlagsAndCount(isLast, count)) == isLast
    ensures CountOf(FlagsAndCount(isLast, count)) == count <==> count <= MAX_ITEMS
  {
    hide And, Or;
    WrittenFlags(isLast, count);
    ReadFlags(FlagsAndCount(isLast, count));
  }

  // ----- Names -----

  /** The characters a name field may hold. */
  predicate Allowed(c: char) {
    'A' <= c <= 'Z' || 'a' <= c <= 'z' || '0' <= c <= '9' || c == '^' || c == '-' || c == '_'
  }

  function CharByte(c: char): u8 {
    if c as int < 0x80 then c as int else 0
  }

  /** The text of a byte below 0x80; any other byte reads as the replacement character. */
  function ByteChar(b: u8): char {
    if b < 0x80 then b as char else 0xFFFD as char
  }

  function Padded(bytes: seq<u8>): (field: seq<u8>)
    requires |bytes| < NAME_SIZE
    ensures |field| == NAME_SIZE
  {
    bytes + seq(NAME_SIZE - |bytes|, _ => 0)
  }

  function Take(s: string, n: nat): string {
    if |s| <= n then s else s[..n]
  }

  /** The 20-byte field of a name: trimmed, filtered, cut to 19 characters, zero padded. */
  function NameField(s: string): (field: seq<u8>)
    ensures |field| == NAME_SIZE
  {
    Padded(Map(CharByte, Take(Filter(Allowed, Trim(s)), NAME_SIZE - 1)))
  }

  function BytesToZero(field: seq<u8>): (bytes: seq<u8>) {
    if field == [] || field[0] == 0 then [] else [field[0]] + BytesToZero(field[1..])
  }

  /** The name a receiver reads from a field. */
  function DecodeName(field: seq<u8>): string {
    Map(ByteChar, BytesToZero(field))
  }

  /** The first 19 allowed characters of a name. */
  function Clean(s: string): (r: string)
    ensures |r| < NAME_SIZE && forall c :: c in r ==> Allowed(c)
  {
    Take(Filter(Allowed, s), NAME_SIZE - 1)
  }

  lemma BytesToZeroPadded(bytes: seq<u8>, pad: seq<u8>)
    requires forall i :: 0 <= i < |bytes| ==> bytes[i] != 0
    requires pad != [] && pad[0] == 0
    ensures BytesToZero(bytes + pad) == bytes
  {
    var s := bytes + pad;
    if bytes == [] {
      assert s == pad;
    } else {
      assert s[0] == bytes[0];
      assert s[1..] == bytes[1..] + pad;
      BytesToZeroPadded(bytes[1..], pad);
    }
  }

  lemma AllowedIsTight(c: char)
    requires Allowed(c)
    ensures !IsWhite(c) && CharByte(c) != 0 && ByteChar(CharByte(c)) == c
  {
  }

  /** The field of a name of at most 19 allowed characters, read back. */
  lemma CleanFieldReadBack(s: string)
    requires |s| < NAME_SIZE && forall i :: 0 <= i < |s| ==> Allowed(s[i])
    ensures DecodeName(Padded(Map(CharByte, s))) == s
  {
    var bytes := Map(CharByte, s);
    var pad := seq(NAME_SIZE - |bytes|, _ => 0);
    forall i | 0 <= i < |bytes| ensures bytes[i] != 0 && ByteChar(bytes[i]) == s[i] {
      AllowedIsTight(s[i]);
    }
    BytesToZeroPadded(bytes, pad);
    assert Padded(bytes) == bytes + pad;
    assert Map(ByteChar, bytes) == s;
  }

  /** Trimming before the filter makes no difference, because the filter keeps no white space. */
  lemma TrimIsRedundant(s: string)
    ensures NameField(s) == Padded(Map(CharByte, Clean(s)))
  {
    forall c | Allowed(c) ensures !IsWhite(c) {
      AllowedIsTight(c);
    }
    TrimThenFilter(Allowed, s);
  }

  /** For every string: what is read back is its first 19 allowed characters, the last byte of
      the field is zero, and encoding the decoded name gives the same field. */
  lemma NameReadBack(s: string)
    ensures DecodeName(NameField(s)) == Clean(s)
    ensures NameField(s)[NAME_SIZE - 1] == 0
    ensures NameField(DecodeName(NameField(s))) == NameField(s)
  {
    TrimIsRedundant(s);
    TrimIsRedundant(Clean(s));
    CleanFieldReadBack(Clean(s));
    FilterAll(Allowed, Clean(s));
  }

  /** A name travels unchanged exactly when it has at most 19 characters, all of them ASCII capital
      letters, small letters, digits, `^`, `-` or `_`. */
  lemma NameTravels(s: string)
    ensures Clean(s) == s <==>
            |s| <= 19 && forall c :: c in s ==> var n := c as int;
                                                65 <= n <= 90 || 97 <= n <= 122 || 48 <= n <= 57 || n in {94, 45, 95}
  {
    if |s| <= 19 && forall c :: c in s ==> Allowed(c) {
      FilterAll(Allowed, s);
    }
  }

  /** The bytes of a name field: the codes of the name's characters, then zeros. */
  lemma NameLayout(s: string)
    ensures |Clean(s)| < 20 == |NameField(s)|
    ensures forall i :: 0 <= i < 20 ==>
              NameField(s)[i] == if i < |Clean(s)| then Clean(s)[i] as int else 0
  {
    TrimIsRedundant(s);
    hide NameField, Clean;
    var name := Clean(s);
    forall i | 0 <= i < |name| ensures CharByte(name[i]) == name[i] as int {
      assert Allowed(name[i]);
    }
  }

  // ----- The header -----

  datatype Header = Header(
    version: u8, sequence: u64, exchangeTimestamp: u64, localTimestamp: u64,
    messageType: u8, flags: u8, symbol: seq<u8>, exchange: seq<u8>)
  {
    ghost predicate Valid() { |symbol| == NAME_SIZE && |exchange| == NAME_SIZE }
  }

  function HeaderBytes(h: Header): (bytes: seq<u8>)
    requires |h.symbol| == NAME_SIZE && |h.exchange| == NAME_SIZE
    ensures |bytes| == HEADER_SIZE
  {
    [h.version] + U64Bytes(h.sequence) + U64Bytes(h.exchangeTimestamp) + U64Bytes(h.localTimestamp)
    + [h.messageType] + [h.flags] + h.symbol + h.exchange
  }

  function HeaderOf(bytes: seq<u8>): (h: Header)
    requires |bytes| >= HEADER_SIZE
    ensures h.Valid()
  {
    Header(bytes[0], U64Of(bytes[1..9]), U64Of(bytes[9..17]), U64Of(bytes[17..25]),
           bytes[25], bytes[26], bytes[27..47], bytes[47..67])
  }

  /** Every field is read back, whatever follows the header. */
  lemma HeaderReadBack(h: Header, rest: seq<u8>)
    requires h.Valid()
    ensures HeaderOf(HeaderBytes(h) + rest) == h
  {
    var b := HeaderBytes(h) + rest;
    assert b[1..9] == U64Bytes(h.sequence);
    assert b[9..17] == U64Bytes(h.exchangeTimestamp);
    assert b[17..25] == U64Bytes(h.localTimestamp);
    assert b[27..47] == h.symbol;
    assert b[47..67] == h.exchange;
    WordRoundTrip(h.sequence, 0, b[1..9]);
    WordRoundTrip(h.exchangeTimestamp, 0, b[9..17]);
    WordRoundTrip(h.localTimestamp, 0, b[17..25]);
  }

  /** Writing a header that was read gives back the first 67 bytes. */
  lemma HeaderWriteBack(bytes: seq<u8>)
    requires |bytes| >= HEADER_SIZE
    ensures HeaderBytes(HeaderOf(bytes)) == bytes[..HEADER_SIZE]
  {
    WordRoundTrip(0, 0, bytes[1..9]);
    WordRoundTrip(0, 0, bytes[9..17]);
    WordRoundTrip(0, 0, bytes[17..25]);
  }

  /** Where each field of a header is. */
  lemma HeaderLayout(h: Header)
    requires h.Valid()
    ensures var b := HeaderBytes(h);
            && |b| == 67 && b[0] == h.version && b[1..9] == U64Bytes(h.sequence)
            && b[9..17] == U64Bytes(h.exchangeTimestamp) && b[17..25] == U64Bytes(h.localTimestamp)
            && b[25] == h.messageType && b[26] == h.flags && b[27..47] == h.symbol && b[47..67] == h.exchange
  {
  }

  /** What a receiver reads in the header of a datagram. */
  datatype Headline = Headline(version: u8, sequence: u64, exchangeTimestamp: u64, localTimestamp: u64,
                               messageType: u8, isLast: bool, count: u8, symbol: string, exchange: string)

  function HeadlineOf(data: seq<u8>): Headline
    requires |data| >= HEADER_SIZE
  {
    var h := HeaderOf(data);
    Headline(h.version, h.sequence, h.exchangeTimestamp, h.localTimestamp, h.messageType,
             IsLastOf(h.flags), CountOf(h.flags), DecodeName(h.symbol), DecodeName(h.exchange))
  }

  // ----- The mutable header and the byte buffer -----

  /** A growable byte vector. */
  class Buffer {
    var bytes: seq<u8>
    var capacity: nat

    ghost predicate Valid()
      reads this
    {
      |bytes| <= capacity
    }

    constructor WithCapacity(capacity: nat)
      ensures Valid() && bytes == [] && this.capacity == capacity
    {
      bytes := [];
      this.capacity := capacity;
    }

    method Clear()
      requires Valid()
      modifies this`bytes
      ensures Valid() && bytes == []
    {
      bytes := [];
    }

    /** Appends the 16 bytes of an item. */
    method AppendItem(item: Item)
      requires Valid()
      modifies this
      ensures Valid() && bytes == old(bytes) + ItemBytes(item)
      ensures old(bytes) <= bytes && ItemOf(bytes[|old(bytes)|..]) == item
    {
      ItemRoundTrip(item, ItemBytes(item));
      assert (bytes + ItemBytes(item))[|bytes|..] == ItemBytes(item);
      bytes := bytes + ItemBytes(item);
      if capacity < |bytes| {
        capacity := |bytes|;
      }
    }
  }

  class PacketHeader {
    var version: u8
    var sequence: u64
    var exchangeTimestamp: u64
    var localTimestamp: u64
    var messageType: u8
    var flags: u8
    var symbol: seq<u8>
    var exchange: seq<u8>

    ghost function View(): Header
      reads this
    {
      Header(version, sequence, exchangeTimestamp, localTimestamp, messageType, flags, symbol, exchange)
    }

    constructor ()
      ensures View() == Header(1, 0, 0, 0, 0, 0, seq(NAME_SIZE, _ => 0), seq(NAME_SIZE, _ => 0))
    {
      version, sequence, exchangeTimestamp, localTimestamp := 1, 0, 0, 0;
      messageType, flags := 0, 0;
      symbol, exchange := seq(NAME_SIZE, _ => 0), seq(NAME_SIZE, _ => 0);
    }

    method SetFlagsAndCount(isLast: bool, count: u8)
      modifies this
      ensures View() == old(View()).(flags := FlagsAndCount(isLast, count))
      ensures IsLastOf(flags) == isLast && (CountOf(flags) == count <==> count <= MAX_ITEMS)
    {
      FlagsReadBack(isLast, count);
      var itemCount := And(if count < MAX_ITEMS then count else MAX_ITEMS, COUNT_MASK);
      if isLast {
        flags := Or(itemCount, LAST_BIT);
      } else {
        flags := itemCount;
      }
    }

    method SetSymbol(s: string)
      modifies this
      ensures View() == old(View()).(symbol := NameField(s))
      ensures |symbol| == NAME_SIZE && symbol[NAME_SIZE - 1] == 0 && DecodeName(symbol) == Clean(s)
    {
      NameReadBack(s);
      symbol := NameField(s);
    }

    method SetExchange(s: string)
      modifies this
      ensures View() == old(View()).(exchange := NameField(s))
      ensures |exchange| == NAME_SIZE && exchange[NAME_SIZE - 1] == 0 && DecodeName(exchange) == Clean(s)
    {
      NameReadBack(s);
      exchange := NameField(s);
    }

    method ToBytes() returns (bytes: seq<u8>)
      requires View().Valid()
      ensures bytes == HeaderBytes(View()) && HeaderOf(bytes) == View()
    {
      HeaderReadBack(View(), []);
      assert HeaderBytes(View()) + [] == HeaderBytes(View());
      bytes := HeaderBytes(
        Header(version, sequence, exchangeTimestamp, localTimestamp, messageType, flags, symbol, exchange));
    }
  }
}
