/** The item list of a vendor (internal/packets/receive/vender_items_lists.go). */
module VendorItems {
  import opened Bytes
  import Hex

  datatype Enchant = Enchant(slot: uint16, value: uint24)

  datatype VenderItem = VenderItem(
    price: uint32, quantity: uint16, position: uint16, itemType: byte, itemID: uint32, unknownValue: uint16,
    cards: (uint32, uint32, uint32, uint32), enchants: (Enchant, Enchant, Enchant, Enchant),
    unknownPart: string, refine: uint16)

  const RECORD_SIZE := 64

  // ---------------------------------------------------------------- reading

  /** ReadUint16LE and ReadUint32LE (internal/common/base.go): zero when out of range. */
  function ReadUint16LE(data: seq<byte>, offset: nat): uint16 {
    if offset + 2 > |data| then 0
    else
      Widths();
      LittleEndian(data[offset..offset + 2])
  }

  function ReadUint32LE(data: seq<byte>, offset: nat): uint32 {
    if offset + 4 > |data| then 0
    else
      Widths();
      LittleEndian(data[offset..offset + 4])
  }

  function ReadUint24LE(data: seq<byte>, offset: nat): uint24
    requires offset + 3 <= |data|
  {
    Widths();
    LittleEndian(data[offset..offset + 3])
  }

  function ReadEnchant(data: seq<byte>, offset: nat): Enchant
    requires offset + 5 <= |data|
  {
    Enchant(ReadUint16LE(data, offset), ReadUint24LE(data, offset + 2))
  }

  /** The item at the start of r. A record of 63 bytes lacks its refine value. */
  function DecodeRecord(r: seq<byte>): VenderItem
    requires |r| >= RECORD_SIZE - 1
  {
    VenderItem(
      ReadUint32LE(r, 0), ReadUint16LE(r, 4), ReadUint16LE(r, 6), r[8], ReadUint32LE(r, 9), ReadUint16LE(r, 13),
      (ReadUint32LE(r, 15), ReadUint32LE(r, 19), ReadUint32LE(r, 23), ReadUint32LE(r, 27)),
      (ReadEnchant(r, 31), ReadEnchant(r, 36), ReadEnchant(r, 41), ReadEnchant(r, 46)),
      Hex.EncodeToString(r[51..62]), if |r| >= RECORD_SIZE then ReadUint16LE(r, 62) else 0)
  }

  /** All the items from here to the end of the payload. */
  function DecodeItems(p: seq<byte>): seq<VenderItem>
    decreases |p|
  {
    if |p| < RECORD_SIZE - 1 then []
    else [DecodeRecord(p)] + DecodeItems(if |p| >= RECORD_SIZE then p[RECORD_SIZE..] else [])
  }

  /** As many items as there are records, the last of which may lack a byte; only that one has no refine value. */
  lemma {:induction false} ItemCount(p: seq<byte>)
    ensures |DecodeItems(p)| == (|p| + 1) / RECORD_SIZE
    ensures |p| % RECORD_SIZE == RECORD_SIZE - 1 ==>
              var items := DecodeItems(p); items != [] && items[|items| - 1].refine == 0
  {
    hide DecodeRecord;
    if |p| >= RECORD_SIZE {
      ItemCount(p[RECORD_SIZE..]);
      OneMore(|p| - RECORD_SIZE);
      var items, later := DecodeItems(p), DecodeItems(p[RECORD_SIZE..]);
      assert items == [DecodeRecord(p)] + later;
      assert later != [] ==> items[|items| - 1] == later[|later| - 1];
    } else if |p| == RECORD_SIZE - 1 {
      NoRefine(p);
    }
  }

  lemma OneMore(n: nat)
    ensures (n + RECORD_SIZE + 1) / RECORD_SIZE == (n + 1) / RECORD_SIZE + 1
    ensures (n + RECORD_SIZE) % RECORD_SIZE == n % RECORD_SIZE
  {
    assert n + RECORD_SIZE + 1 == RECORD_SIZE * ((n + 1) / RECORD_SIZE + 1) + (n + 1) % RECORD_SIZE;
    assert n + RECORD_SIZE == RECORD_SIZE * (n / RECORD_SIZE + 1) + n % RECORD_SIZE;
  }

  lemma NoRefine(r: seq<byte>)
    requires |r| == RECORD_SIZE - 1
    ensures DecodeRecord(r).refine == 0
  {
  }

  // ---------------------------------------------------------------- the format, byte by byte

  predicate EnchantAt(p: seq<byte>, i: nat, e: Enchant) {
    && i + 5 <= |p| && e.slot == Uint16(p, i)
    && e.value == p[i + 2] as int + 0x100 * p[i + 3] as int + 0x1_0000 * p[i + 4] as int
  }

  /** The fields of the record at i; its last byte may be missing, and the refine value is zero then. */
  predicate ItemAt(p: seq<byte>, i: nat, item: VenderItem) {
    && i + 63 <= |p|
    && item.price == Number32(p, i) && item.quantity == Uint16(p, i + 4) && item.position == Uint16(p, i + 6)
    && item.itemType == p[i + 8] && item.itemID == Number32(p, i + 9) && item.unknownValue == Uint16(p, i + 13)
    && item.cards == (Number32(p, i + 15), Number32(p, i + 19), Number32(p, i + 23), Number32(p, i + 27))
    && EnchantAt(p, i + 31, item.enchants.0) && EnchantAt(p, i + 36, item.enchants.1)
    && EnchantAt(p, i + 41, item.enchants.2) && EnchantAt(p, i + 46, item.enchants.3)
    && item.unknownPart == Hex.EncodeToString(p[i + 51..i + 62])
    && item.refine == if i + 64 <= |p| then Uint16(p, i + 62) else 0
  }

  lemma Read16Means(p: seq<byte>, i: nat)
    ensures ReadUint16LE(p, i) == if i + 2 > |p| then 0 else Uint16(p, i)
  {
    if i + 2 <= |p| {
      var t := p[i..i + 2];
      assert t[1..] == [p[i + 1]] && LittleEndian([p[i + 1]]) == p[i + 1];
    }
  }

  lemma Read32Means(p: seq<byte>, i: nat)
    ensures ReadUint32LE(p, i) == if i + 4 > |p| then 0 else Number32(p, i)
  {
    hide LittleEndian, Number32, Number32At;
    if i + 4 <= |p| {
      FourBytes(p, i);
      NumberIs(p, i, LittleEndian(p[i..i + 4]));
    }
  }

  lemma EnchantMeans(p: seq<byte>, i: nat)
    requires i + 5 <= |p|
    ensures EnchantAt(p, i, ReadEnchant(p, i))
  {
    Read16Means(p, i);
    hide ReadUint16LE;
    var t := p[i + 2..i + 5];
    assert t[1..] == [p[i + 3], p[i + 4]] && t[1..][1..] == [p[i + 4]];
    assert LittleEndian([p[i + 4]]) == p[i + 4];
    assert LittleEndian(t) == p[i + 2] + 256 * LittleEndian(t[1..]);
  }

  lemma RecordMeans(p: seq<byte>)
    requires |p| >= 63
    ensures ItemAt(p, 0, DecodeRecord(p))
  {
    hide ReadUint16LE, ReadUint32LE, ReadEnchant, EnchantAt, Number32, Hex.EncodeToString;
    Read32Means(p, 0); Read16Means(p, 4); Read16Means(p, 6); Read32Means(p, 9); Read16Means(p, 13);
    Read32Means(p, 15); Read32Means(p, 19); Read32Means(p, 23); Read32Means(p, 27);
    EnchantMeans(p, 31); EnchantMeans(p, 36); EnchantMeans(p, 41); EnchantMeans(p, 46);
    Read16Means(p, 62);
  }

  lemma EnchantLater(p: seq<byte>, n: nat, i: nat, e: Enchant)
    requires n <= |p| && EnchantAt(p[n..], i, e)
    ensures EnchantAt(p, n + i, e)
  {
  }

  lemma ItemLater(p: seq<byte>, n: nat, i: nat, item: VenderItem)
    requires n <= |p| && ItemAt(p[n..], i, item)
    ensures ItemAt(p, n + i, item)
  {
    hide EnchantAt, Hex.EncodeToString;
    var q := p[n..];
    forall j | 0 <= j < |q| ensures q[j] == p[n + j] {
    }
    assert q[i + 51..i + 62] == p[n + i + 51..n + i + 62];
    EnchantLater(p, n, i + 31, item.enchants.0);
    EnchantLater(p, n, i + 36, item.enchants.1);
    EnchantLater(p, n, i + 41, item.enchants.2);
    EnchantLater(p, n, i + 46, item.enchants.3);
  }

  /** Item k is read from the 64 bytes at 64 * k. */
  lemma {:induction false} ItemsMean(p: seq<byte>, k: nat)
    requires k < |DecodeItems(p)|
    ensures ItemAt(p, 64 * k, DecodeItems(p)[k])
    decreases k
  {
    hide DecodeRecord, ItemAt;
    if k == 0 {
      RecordMeans(p);
    } else {
      ItemsMean(p[64..], k - 1);
      ItemLater(p, 64, 64 * (k - 1), DecodeItems(p)[k]);
    }
  }

  // ---------------------------------------------------------------- writing

  function PutEnchant(e: Enchant): (s: seq<byte>)
    ensures |s| == 5
  {
    PutLittleEndian(e.slot, 2) + PutLittleEndian(e.value, 3)
  }

  function PutItem(item: VenderItem): (s: seq<byte>)
    ensures |s| == 15
  {
    PutLittleEndian(item.price, 4) + PutLittleEndian(item.quantity, 2) + PutLittleEndian(item.position, 2) +
    [item.itemType] + PutLittleEndian(item.itemID, 4) + PutLittleEndian(item.unknownValue, 2)
  }

  function PutCards(c: (uint32, uint32, uint32, uint32)): (s: seq<byte>)
    ensures |s| == 16
  {
    PutLittleEndian(c.0, 4) + PutLittleEndian(c.1, 4) + PutLittleEndian(c.2, 4) + PutLittleEndian(c.3, 4)
  }

  function PutEnchants(e: (Enchant, Enchant, Enchant, Enchant)): (s: seq<byte>)
    ensures |s| == 20
  {
    PutEnchant(e.0) + PutEnchant(e.1) + PutEnchant(e.2) + PutEnchant(e.3)
  }

  /** unknown are the eleven bytes whose hex the item carries. */
  function EncodeRecord(item: VenderItem, unknown: seq<byte>): (s: seq<byte>)
    requires |unknown| == 11
    ensures |s| == RECORD_SIZE
  {
    PutItem(item) + PutCards(item.cards) + PutEnchants(item.enchants) + unknown + PutLittleEndian(item.refine, 2)
  }

  /** Each item carries the hex of its eleven unknown bytes. */
  predicate Carry(items: seq<VenderItem>, unknowns: seq<seq<byte>>) {
    |items| == |unknowns| &&
    forall i :: 0 <= i < |items| ==> |unknowns[i]| == 11 && items[i].unknownPart == Hex.EncodeToString(unknowns[i])
  }

  function EncodeItems(items: seq<VenderItem>, unknowns: seq<seq<byte>>): seq<byte>
    requires Carry(items, unknowns)
  {
    if items == [] then []
    else EncodeRecord(items[0], unknowns[0]) + EncodeItems(items[1..], unknowns[1..])
  }

  // ---------------------------------------------------------------- round trip

  lemma Read16(a: seq<byte>, v: uint16, b: seq<byte>)
    ensures ReadUint16LE(a + PutLittleEndian(v, 2) + b, |a|) == v
  {
    Widths();
    PutThenGet(v, 2);
    var field := PutLittleEndian(v, 2);
    assert (a + field + b)[|a|..|a| + 2] == field;
  }

  lemma Read32(a: seq<byte>, v: uint32, b: seq<byte>)
    ensures ReadUint32LE(a + PutLittleEndian(v, 4) + b, |a|) == v
  {
    Widths();
    PutThenGet(v, 4);
    var field := PutLittleEndian(v, 4);
    hide PutLittleEndian, LittleEndian;
    assert (a + field + b)[|a|..|a| + 4] == field;
  }

  lemma ReadBack(a: seq<byte>, e: Enchant, b: seq<byte>)
    ensures ReadEnchant(a + PutEnchant(e) + b, |a|) == e
  {
    Widths();
    var slot, value := PutLittleEndian(e.slot, 2), PutLittleEndian(e.value, 3);
    PutThenGet(e.value, 3);
    Read16(a, e.slot, value + b);
    hide PutLittleEndian, LittleEndian, ReadUint16LE;
    Middle(a, slot, value, b);
  }

  lemma Middle<T>(a: seq<T>, m: seq<T>, n: seq<T>, b: seq<T>)
    ensures a + (m + n) + b == a + m + (n + b)
    ensures (a + (m + n) + b)[|a| + |m|..|a| + |m| + |n|] == n
  {
    assert a + (m + n) + b == (a + m) + n + b;
  }

  /** Reading inside a part of a record. */
  lemma Within(a: seq<byte>, m: seq<byte>, b: seq<byte>, offset: nat)
    ensures offset + 2 <= |m| ==> ReadUint16LE(a + m + b, |a| + offset) == ReadUint16LE(m, offset)
    ensures offset + 4 <= |m| ==> ReadUint32LE(a + m + b, |a| + offset) == ReadUint32LE(m, offset)
    ensures offset + 5 <= |m| ==> ReadEnchant(a + m + b, |a| + offset) == ReadEnchant(m, offset)
  {
    hide LittleEndian;
    var s := a + m + b;
    if offset + 2 <= |m| { assert s[|a| + offset..|a| + offset + 2] == m[offset..offset + 2]; }
    if offset + 4 <= |m| { assert s[|a| + offset..|a| + offset + 4] == m[offset..offset + 4]; }
    if offset + 5 <= |m| { assert s[|a| + offset + 2..|a| + offset + 5] == m[offset + 2..offset + 5]; }
  }

  lemma ItemPart(item: VenderItem)
    ensures var m := PutItem(item);
            && ReadUint32LE(m, 0) == item.price && ReadUint16LE(m, 4) == item.quantity
              && ReadUint16LE(m, 6) == item.position
            && m[8] == item.itemType && ReadUint32LE(m, 9) == item.itemID && ReadUint16LE(m, 13) == item.unknownValue
  {
    var price, quantity, position := PutLittleEndian(item.price, 4), PutLittleEndian(item.quantity, 2),
      PutLittleEndian(item.position, 2);
    var id, unknown := PutLittleEndian(item.itemID, 4), PutLittleEndian(item.unknownValue, 2);
    hide PutLittleEndian, LittleEndian, ReadUint16LE, ReadUint32LE;
    var kind: seq<byte> := [item.itemType];
    Parts(price, quantity, position, kind, id, unknown);
    Read32([], item.price, quantity + position + kind + id + unknown);
    Read16(price, item.quantity, position + kind + id + unknown);
    Read16(price + quantity, item.position, kind + id + unknown);
    Read32(price + quantity + position + kind, item.itemID, unknown);
    Read16(price + quantity + position + kind + id, item.unknownValue, []);
  }

  lemma Parts<T>(a: seq<T>, b: seq<T>, c: seq<T>, k: seq<T>, d: seq<T>, e: seq<T>)
    requires |k| == 1
    ensures var m := a + b + c + k + d + e;
            && m == [] + a + (b + c + k + d + e) && m == a + b + (c + k + d + e) && m == a + b + c + (k + d + e)
            && m == a + b + c + k + d + e + [] && m[|a + b + c|] == k[0]
  {
  }

  lemma CardsPart(c: (uint32, uint32, uint32, uint32))
    ensures var m := PutCards(c);
            ReadUint32LE(m, 0) == c.0 && ReadUint32LE(m, 4) == c.1 && ReadUint32LE(m, 8) == c.2
              && ReadUint32LE(m, 12) == c.3
  {
    var c0, c1, c2, c3 := PutLittleEndian(c.0, 4), PutLittleEndian(c.1, 4), PutLittleEndian(c.2, 4),
      PutLittleEndian(c.3, 4);
    hide PutLittleEndian, LittleEndian, ReadUint32LE;
    var m := PutCards(c);
    Read32([], c.0, c1 + c2 + c3);
    assert m == [] + c0 + (c1 + c2 + c3);
    Read32(c0, c.1, c2 + c3);
    assert m == c0 + c1 + (c2 + c3);
    Read32(c0 + c1, c.2, c3);
    Read32(c0 + c1 + c2, c.3, []);
    assert m == c0 + c1 + c2 + c3 + [];
  }

  lemma EnchantsPart(e: (Enchant, Enchant, Enchant, Enchant))
    ensures var m := PutEnchants(e);
            ReadEnchant(m, 0) == e.0 && ReadEnchant(m, 5) == e.1 && ReadEnchant(m, 10) == e.2
              && ReadEnchant(m, 15) == e.3
  {
    var e0, e1, e2, e3 := PutEnchant(e.0), PutEnchant(e.1), PutEnchant(e.2), PutEnchant(e.3);
    hide PutEnchant, ReadEnchant;
    var m := PutEnchants(e);
    ReadBack([], e.0, e1 + e2 + e3);
    assert m == [] + e0 + (e1 + e2 + e3);
    ReadBack(e0, e.1, e2 + e3);
    assert m == e0 + e1 + (e2 + e3);
    ReadBack(e0 + e1, e.2, e3);
    ReadBack(e0 + e1 + e2, e.3, []);
    assert m == e0 + e1 + e2 + e3 + [];
  }

  lemma RecordRoundTrip(item: VenderItem, unknown: seq<byte>, rest: seq<byte>)
    requires |unknown| == 11 && item.unknownPart == Hex.EncodeToString(unknown)
    ensures DecodeRecord(EncodeRecord(item, unknown) + rest) == item
  {
    var i, c, e, refine := PutItem(item), PutCards(item.cards), PutEnchants(item.enchants),
      PutLittleEndian(item.refine, 2);
    ItemPart(item);
    CardsPart(item.cards);
    EnchantsPart(item.enchants);
    Read16(i + c + e + unknown, item.refine, rest);
    hide PutItem, PutCards, PutEnchants, PutLittleEndian, ReadUint16LE, ReadUint32LE, ReadEnchant;
    var r := EncodeRecord(item, unknown) + rest;
    Regroup(i, c, e, unknown, refine, rest);
    PartItem(item, r, c + e + unknown + refine + rest);
    PartCards(item.cards, r, i, e + unknown + refine + rest);
    PartEnchants(item.enchants, r, i + c, unknown + refine + rest);
  }

  lemma Regroup<T>(i: seq<T>, c: seq<T>, e: seq<T>, u: seq<T>, f: seq<T>, rest: seq<T>)
    ensures var r := i + c + e + u + f + rest;
            && r == [] + i + (c + e + u + f + rest) && r == i + c + (e + u + f + rest)
              && r == i + c + e + (u + f + rest)
            && r[|i + c + e|..|i + c + e| + |u|] == u
  {
  }

  lemma PartItem(item: VenderItem, r: seq<byte>, rest: seq<byte>)
    ensures r == [] + PutItem(item) + rest ==>
              && ReadUint32LE(r, 0) == item.price && ReadUint16LE(r, 4) == item.quantity
                && ReadUint16LE(r, 6) == item.position
              && r[8] == item.itemType && ReadUint32LE(r, 9) == item.itemID && ReadUint16LE(r, 13) == item.unknownValue
  {
    ItemPart(item);
    var m := PutItem(item);
    hide PutItem, ReadUint16LE, ReadUint32LE;
    Within([], m, rest, 0); Within([], m, rest, 4); Within([], m, rest, 6);
    Within([], m, rest, 9); Within([], m, rest, 13);
  }

  lemma PartCards(c: (uint32, uint32, uint32, uint32), r: seq<byte>, a: seq<byte>, rest: seq<byte>)
    requires |a| == 15
    ensures r == a + PutCards(c) + rest ==>
              (ReadUint32LE(r, 15), ReadUint32LE(r, 19), ReadUint32LE(r, 23), ReadUint32LE(r, 27)) == c
  {
    CardsPart(c);
    var m := PutCards(c);
    hide PutCards, ReadUint32LE, ReadUint16LE;
    Within(a, m, rest, 0); Within(a, m, rest, 4); Within(a, m, rest, 8); Within(a, m, rest, 12);
  }

  lemma PartEnchants(e: (Enchant, Enchant, Enchant, Enchant), r: seq<byte>, a: seq<byte>, rest: seq<byte>)
    requires |a| == 31
    ensures r == a + PutEnchants(e) + rest ==>
              (ReadEnchant(r, 31), ReadEnchant(r, 36), ReadEnchant(r, 41), ReadEnchant(r, 46)) == e
  {
    EnchantsPart(e);
    var m := PutEnchants(e);
    hide PutEnchants, ReadEnchant, ReadUint16LE, ReadUint32LE;
    Within(a, m, rest, 0); Within(a, m, rest, 5); Within(a, m, rest, 10); Within(a, m, rest, 15);
  }

  /** Any list of items comes back. */
  lemma {:induction false} ItemsRoundTrip(items: seq<VenderItem>, unknowns: seq<seq<byte>>)
    requires Carry(items, unknowns)
    ensures DecodeItems(EncodeItems(items, unknowns)) == items
  {
    if items == [] {
    } else {
      hide DecodeRecord, EncodeRecord, EncodeItems, DecodeItems, Hex.EncodeToString, Carry;
      EncodeFirst(items, unknowns);
      var rest := EncodeItems(items[1..], unknowns[1..]);
      RecordRoundTrip(items[0], unknowns[0], rest);
      ItemsFirst(EncodeRecord(items[0], unknowns[0]), rest);
      ItemsRoundTrip(items[1..], unknowns[1..]);
    }
  }

  lemma EncodeFirst(items: seq<VenderItem>, unknowns: seq<seq<byte>>)
    requires Carry(items, unknowns) && items != []
    ensures |unknowns[0]| == 11 && items[0].unknownPart == Hex.EncodeToString(unknowns[0])
    ensures Carry(items[1..], unknowns[1..])
    ensures EncodeItems(items, unknowns)
         == EncodeRecord(items[0], unknowns[0]) + EncodeItems(items[1..], unknowns[1..])
  {
    hide EncodeRecord, Hex.EncodeToString;
  }

  lemma ItemsFirst(record: seq<byte>, rest: seq<byte>)
    requires |record| == RECORD_SIZE
    ensures DecodeItems(record + rest) == [DecodeRecord(record + rest)] + DecodeItems(rest)
  {
    hide DecodeRecord;
    assert (record + rest)[RECORD_SIZE..] == rest;
  }

  // ---------------------------------------------------------------- the code

  const ITEM_LIST_4 := 0x0b62
  const ITEM_LIST_3 := 0x0b3d

  datatype VendorList = VendorList(
    vendorID: uint32, vendorCID: uint32, flag: uint32, expiredDate: uint32, items: seq<VenderItem>)

  datatype Outcome = NoList | Panicked | Read(list: VendorList)

  /** What Deserialize makes of a payload, before it asks for the map. The flag is read without a check of the
      length. */
  function Deserialized(opcode: nat, payload: seq<byte>): Outcome {
    if opcode == ITEM_LIST_4 then
      if |payload| <= 12 then Panicked
      else Read(VendorList(ReadUint32LE(payload, 4), ReadUint32LE(payload, 8),
                           payload[12] as int, ReadUint32LE(payload, 13),
                           if |payload| >= 17 then DecodeItems(payload[17..]) else []))
    else if opcode == ITEM_LIST_3 then
      Read(VendorList(ReadUint32LE(payload, 4), ReadUint32LE(payload, 8), 0, 0,
                      if |payload| >= 12 then DecodeItems(payload[12..]) else []))
    else NoList
  }

  /** What is read of a payload long enough for its header: numbers that are cut short are zero. */
  ghost predicate ListAt(opcode: nat, p: seq<byte>, list: VendorList) {
    && list.vendorID == (if |p| >= 8 then Number32(p, 4) else 0)
    && list.vendorCID == (if |p| >= 12 then Number32(p, 8) else 0)
    && (opcode == 0x0b62 ==> |p| >= 13 && list.flag == p[12] as int)
    && list.expiredDate == (if opcode == 0x0b62 && |p| >= 17 then Number32(p, 13) else 0)
    && (opcode != 0x0b62 ==> list.flag == 0)
    && var start := if opcode == 0x0b62 then 17 else 12;
       && |list.items| == (if |p| >= start then (|p| - start + 1) / 64 else 0)
       && forall k :: 0 <= k < |list.items| ==> ItemAt(p, start + 64 * k, list.items[k])
  }

  lemma ListItems(p: seq<byte>, start: nat)
    ensures var items := if |p| >= start then DecodeItems(p[start..]) else [];
            && |items| == (if |p| >= start then (|p| - start + 1) / 64 else 0)
            && forall k :: 0 <= k < |items| ==> ItemAt(p, start + 64 * k, items[k])
  {
    hide DecodeItems, ItemAt;
    if |p| >= start {
      ItemCount(p[start..]);
      var items := DecodeItems(p[start..]);
      forall k | 0 <= k < |items| ensures ItemAt(p, start + 64 * k, items[k]) {
        ItemsMean(p[start..], k);
        ItemLater(p, start, 64 * k, items[k]);
      }
    }
  }

  /** No list, a panic, or a list with everything at its place. */
  ghost predicate RightOutcome(opcode: nat, p: seq<byte>, outcome: Outcome) {
    match outcome
    case NoList => opcode != 0x0b62 && opcode != 0x0b3d
    case Panicked => opcode == 0x0b62 && |p| <= 12
    case Read(list) => (opcode == 0x0b62 || opcode == 0x0b3d) && ListAt(opcode, p, list)
  }

  /** For any opcode and payload at all. */
  lemma DeserializedMeans(opcode: nat, p: seq<byte>)
    ensures RightOutcome(opcode, p, Deserialized(opcode, p))
  {
    hide DecodeItems, ItemAt, ReadUint32LE, Number32;
    Read32Means(p, 4); Read32Means(p, 8); Read32Means(p, 13);
    ListItems(p, 17);
    ListItems(p, 12);
  }

  /** A valid header (the first four bytes are not read) and any items are read back. */
  lemma ListRoundTrip(v: VendorList, front: seq<byte>, unknowns: seq<seq<byte>>)
    requires |front| == 4 && v.flag < 256
    requires Carry(v.items, unknowns)
    ensures var ids := front + PutLittleEndian(v.vendorID, 4) + PutLittleEndian(v.vendorCID, 4);
            var items := EncodeItems(v.items, unknowns);
            && Deserialized(ITEM_LIST_4, ids + [v.flag] + PutLittleEndian(v.expiredDate, 4) + items) == Read(v)
            && Deserialized(ITEM_LIST_3, ids + items) == Read(v.(flag := 0, expiredDate := 0))
  {
    ItemsRoundTrip(v.items, unknowns);
    hide EncodeItems, DecodeItems, Deserialized, PutLittleEndian, Carry;
    List4(v, front, EncodeItems(v.items, unknowns));
    List3(v, front, EncodeItems(v.items, unknowns));
  }

  lemma List4(v: VendorList, front: seq<byte>, items: seq<byte>)
    requires |front| == 4 && v.flag < 256 && DecodeItems(items) == v.items
    ensures var ids := front + PutLittleEndian(v.vendorID, 4) + PutLittleEndian(v.vendorCID, 4);
            Deserialized(ITEM_LIST_4, ids + [v.flag] + PutLittleEndian(v.expiredDate, 4) + items) == Read(v)
  {
    var id, cid, date := PutLittleEndian(v.vendorID, 4), PutLittleEndian(v.vendorCID, 4),
      PutLittleEndian(v.expiredDate, 4);
    var flag: seq<byte> := [v.flag];
    hide PutLittleEndian, DecodeItems, ReadUint32LE;
    Read32(front, v.vendorID, cid + flag + date + items);
    Read32(front + id, v.vendorCID, flag + date + items);
    Read32(front + id + cid + flag, v.expiredDate, items);
    Headers(front, id, cid, flag, date, items);
  }

  lemma List3(v: VendorList, front: seq<byte>, items: seq<byte>)
    requires |front| == 4 && DecodeItems(items) == v.items
    ensures var ids := front + PutLittleEndian(v.vendorID, 4) + PutLittleEndian(v.vendorCID, 4);
            Deserialized(ITEM_LIST_3, ids + items) == Read(v.(flag := 0, expiredDate := 0))
  {
    var id, cid := PutLittleEndian(v.vendorID, 4), PutLittleEndian(v.vendorCID, 4);
    hide PutLittleEndian, DecodeItems, ReadUint32LE;
    Read32(front, v.vendorID, cid + items);
    Read32(front + id, v.vendorCID, items);
    var m := front + id + cid + items;
    assert m == front + id + (cid + items) && m[12..] == items;
  }

  lemma Headers<T>(front: seq<T>, id: seq<T>, cid: seq<T>, flag: seq<T>, date: seq<T>, items: seq<T>)
    ensures var m := front + id + cid + flag + date + items;
            && m == front + id + (cid + flag + date + items) && m == front + id + cid + (flag + date + items)
            && m[|front + id + cid + flag + date|..] == items
            && (flag != [] ==> m[|front + id + cid|] == flag[0])
  {
  }

  /** ReadUint32LE and the others read at an offset what they read at the start of the rest. */
  lemma FromOffset(data: seq<byte>, i: nat, offset: nat)
    requires i <= |data|
    ensures ReadUint16LE(data, i + offset) == ReadUint16LE(data[i..], offset)
    ensures ReadUint32LE(data, i + offset) == ReadUint32LE(data[i..], offset)
    ensures i + offset + 5 <= |data| ==> ReadEnchant(data, i + offset) == ReadEnchant(data[i..], offset)
  {
    hide LittleEndian;
    if i + offset + 2 <= |data| { assert data[i..][offset..offset + 2] == data[i + offset..i + offset + 2]; }
    if i + offset + 4 <= |data| { assert data[i..][offset..offset + 4] == data[i + offset..i + offset + 4]; }
    if i + offset + 5 <= |data| { assert data[i..][offset + 2..offset + 5] == data[i + offset + 2..i + offset + 5]; }
  }

  method ReadCards(payload: seq<byte>, cs: nat) returns (cards: (uint32, uint32, uint32, uint32))
    requires cs + 17 <= |payload|
    ensures var r := payload[cs + 1..];
            cards == (ReadUint32LE(r, 0), ReadUint32LE(r, 4), ReadUint32LE(r, 8), ReadUint32LE(r, 12))
  {
    hide ReadUint32LE, ReadUint16LE, ReadEnchant;
    FromOffset(payload, cs + 1, 0); FromOffset(payload, cs + 1, 4);
    FromOffset(payload, cs + 1, 8); FromOffset(payload, cs + 1, 12);
    cards := (ReadUint32LE(payload, cs + 1), ReadUint32LE(payload, cs + 5),
              ReadUint32LE(payload, cs + 9), ReadUint32LE(payload, cs + 13));
  }

  method ReadEnchants(payload: seq<byte>, es: nat) returns (enchants: (Enchant, Enchant, Enchant, Enchant))
    requires es + 21 <= |payload|
    ensures var r := payload[es + 1..];
            enchants == (ReadEnchant(r, 0), ReadEnchant(r, 5), ReadEnchant(r, 10), ReadEnchant(r, 15))
  {
    hide ReadUint32LE, ReadUint16LE, ReadEnchant;
    FromOffset(payload, es + 1, 0); FromOffset(payload, es + 1, 5);
    FromOffset(payload, es + 1, 10); FromOffset(payload, es + 1, 15);
    enchants := (ReadEnchant(payload, es + 1), ReadEnchant(payload, es + 6),
                 ReadEnchant(payload, es + 11), ReadEnchant(payload, es + 16));
  }

  /** One turn of the loop, with its own offsets. */
  method ReadItem(payload: seq<byte>, i: nat) returns (item: VenderItem, next: nat)
    requires i + 63 <= |payload|
    ensures item == DecodeRecord(payload[i..]) && next == i + RECORD_SIZE
  {
    hide LittleEndian, ReadUint32LE, ReadUint16LE, ReadEnchant;
    var r := payload[i..];
    var cs := i + 14;
    var cards := ReadCards(payload, cs);
    var es := cs + 16;
    var enchants := ReadEnchants(payload, es);
    var uk := es + 20;
    var ukEnd := uk + 11;
    var unknownBytes: seq<byte> := [];
    var u := uk;
    while u < ukEnd && u + 1 < |payload|
      invariant uk <= u <= ukEnd && unknownBytes == payload[uk + 1..u + 1]
    {
      unknownBytes := unknownBytes + [payload[u + 1]];
      u := u + 1;
    }
    var refine := 0;
    if ukEnd + 2 < |payload| {
      refine := ReadUint16LE(payload, ukEnd + 1);
    }
    next := ukEnd + 3;
    FromOffset(payload, i, 0); FromOffset(payload, i, 4); FromOffset(payload, i, 6);
    FromOffset(payload, i, 9); FromOffset(payload, i, 13); FromOffset(payload, i, 62);
    item := VenderItem(
      ReadUint32LE(payload, i), ReadUint16LE(payload, i + 4), ReadUint16LE(payload, i + 6), payload[i + 8],
      ReadUint32LE(payload, i + 9), ReadUint16LE(payload, i + 13), cards, enchants,
      Hex.EncodeToString(unknownBytes), refine);
    assert unknownBytes == r[51..62];
    Tails(payload, i);
    FromOffset(r, 15, 0); FromOffset(r, 15, 4); FromOffset(r, 15, 8); FromOffset(r, 15, 12);
    FromOffset(r, 31, 0); FromOffset(r, 31, 5); FromOffset(r, 31, 10); FromOffset(r, 31, 15);
  }

  lemma Tails(payload: seq<byte>, i: nat)
    requires i + 63 <= |payload|
    ensures payload[i + 14 + 1..] == payload[i..][15..] && payload[i + 14 + 16 + 1..] == payload[i..][31..]
  {
  }

  /** Deserialize up to the question for the map. */
  method Deserialize(opcode: nat, payload: seq<byte>) returns (outcome: Outcome)
    ensures outcome == Deserialized(opcode, payload)
    ensures outcome == Panicked <==> opcode == 0x0b62 && |payload| <= 12
    ensures RightOutcome(opcode, payload, outcome)
  {
    hide RightOutcome;
    DeserializedMeans(opcode, payload);
    hide ReadUint32LE, DecodeRecord;
    var vendorID, vendorCID, flag, expiredDate: uint32 := 0, 0, 0, 0;
    var itemListStart := 0;
    if opcode == ITEM_LIST_4 {
      vendorID := ReadUint32LE(payload, 4);
      vendorCID := ReadUint32LE(payload, 8);
      if |payload| <= 12 {
        return Panicked;
      }
      flag := payload[12];
      expiredDate := ReadUint32LE(payload, 13);
      itemListStart := 17;
    } else if opcode == ITEM_LIST_3 {
      vendorID := ReadUint32LE(payload, 4);
      vendorCID := ReadUint32LE(payload, 8);
      itemListStart := 12;
    } else {
      return NoList;
    }
    var items: seq<VenderItem> := [];
    var i := itemListStart;
    ghost var all := Rest(payload, i);
    while i + 63 <= |payload|
      invariant i >= itemListStart && items + Rest(payload, i) == all
    {
      var item: VenderItem;
      RestStep(payload, i, items);
      item, i := ReadItem(payload, i);
      items := items + [item];
    }
    assert Rest(payload, i) == [];
    outcome := Read(VendorList(vendorID, vendorCID, flag, expiredDate, items));
  }

  function Rest(payload: seq<byte>, i: nat): seq<VenderItem> {
    if i <= |payload| then DecodeItems(payload[i..]) else []
  }

  lemma RestStep(payload: seq<byte>, i: nat, items: seq<VenderItem>)
    requires i + 63 <= |payload|
    ensures items + Rest(payload, i) == items + [DecodeRecord(payload[i..])] + Rest(payload, i + RECORD_SIZE)
  {
    hide DecodeRecord;
    var p := payload[i..];
    assert DecodeItems([]) == [];
    assert DecodeItems(p) == [DecodeRecord(p)] + Rest(payload, i + RECORD_SIZE) by {
      if |p| >= RECORD_SIZE {
        assert p[RECORD_SIZE..] == payload[i + RECORD_SIZE..];
      }
    }
  }
}
