/** The object table line by line: every screen line of a shown sprite takes the tile and the tile row that the NES takes
  * (tools/build_scene.py:17-34). */
module SpriteRows {
  import opened Bytes
  import opened Sprites

  /** Lines of every sprite, from bit 5 of the control register. */
  function Height(ctrl: byte): nat {
    if ctrl / 0x20 % 2 == 1 then 16 else 8
  }

  /** The tile and the row of it that the NES draws on line d of a sprite. */
  function NesTile(tile: byte, flags: byte, ctrl: byte, d: nat): (nat, nat)
    requires d < Height(ctrl)
  {
    var line := if flags >= 0x80 then Height(ctrl) - 1 - d else d;
    if Height(ctrl) == 16 then (tile % 2 * 0x100 + (tile - tile % 2) + line / 8, line % 8)
    else (ctrl / 8 % 2 * 0x100 + tile, line)
  }

  /** The tile and the row of it that an 8 by 8 object draws on its own line d. */
  function ObjectTile(o: Object, d: nat): (nat, nat)
    requires d < 8
  {
    (o.flags % 2 * 0x100 + o.tile, if o.flags >= 0x80 then 7 - d else d)
  }

  /** The object draws line d of the sprite stored at these four bytes, cut by crop lines. */
  predicate Draws(o: Object, y: byte, tile: byte, flags: byte, x: byte, ctrl: byte, crop: int, d: nat)
    requires d < Height(ctrl)
  {
    && o.x == x && (o.y + d % 8) % 0x100 == (y + 1 - crop + d) % 0x100
    && ObjectTile(o, d % 8) == NesTile(tile, flags, ctrl, d)
    && o.flags / 2 % 8 == flags % 4 && o.flags / 16 % 4 == (if flags / 0x20 % 2 == 1 then 1 else 3)
    && o.flags / 0x40 == flags / 0x40
  }

  lemma FlagsOfPart(index: nat, flags: byte, priority: nat)
    requires index < 0x200 && (priority == 1 || priority == 3)
    ensures var f := index / 256 % 2 + flags % 4 * 2 + priority * 16 + flags / 64 * 64;
      f < 0x100 && f % 2 == index / 0x100 && f / 2 % 8 == flags % 4 && f / 16 % 4 == priority && f / 0x40 == flags / 0x40
      && (f >= 0x80 <==> flags >= 0x80)
  {
    var low := index / 256 % 2 + flags % 4 * 2;
    var f := low + priority * 16 + flags / 64 * 64;
    assert low < 8 && f / 16 == priority + flags / 64 * 4;
    assert f / 2 == flags % 4 + 8 * priority + 32 * (flags / 64);
  }

  lemma LineOfPart(y: byte, crop: int, row: nat, d: nat)
    requires row == d / 8
    ensures ((y + 1 - crop + row * 8) % 0x100 + d % 8) % 0x100 == (y + 1 - crop + d) % 0x100
  {
    Wrapped(y + 1 - crop + row * 8, d % 8);
  }

  lemma Wrapped(a: int, b: nat)
    ensures (a % 0x100 + b) % 0x100 == (a + b) % 0x100
  {}

  lemma PartIndex(e: Object, ctrl: byte, d: nat)
    requires d < Height(ctrl) && d / 8 < |Halves(e, ctrl)|
    ensures var index := (if Tall(ctrl) then e.tile % 2 * 256 + e.tile / 2 * 2 else ctrl / 8 % 2 * 8 * 32 + e.tile)
        + Halves(e, ctrl)[d / 8];
      index < 0x200 && NesTile(e.tile, e.flags, ctrl, d) == (index, if e.flags >= 0x80 then 7 - d % 8 else d % 8)
  {
    LineInTile(ctrl, d);
  }

  /** An object with the fields of a part draws its line. */
  lemma FieldsDraw(o: Object, e: Object, ctrl: byte, crop: int, d: nat, index: nat, priority: nat)
    requires d < Height(ctrl) && index < 0x200 && priority == if e.flags / 0x20 % 2 == 1 then 1 else 3
    requires NesTile(e.tile, e.flags, ctrl, d) == (index, if e.flags >= 0x80 then 7 - d % 8 else d % 8)
    requires o.x == e.x && o.y == (e.y + 1 - crop + d / 8 * 8) % 0x100 && o.tile == index % 0x100
    requires o.flags == index / 256 % 2 + e.flags % 4 * 2 + priority * 16 + e.flags / 64 * 64
    ensures Draws(o, e.y, e.tile, e.flags, e.x, ctrl, crop, d)
  {
    FlagsOfPart(index, e.flags, priority);
    LineOfPart(e.y, crop, d / 8, d);
    hide NesTile, Height;
    assert index % 0x100 + index / 0x100 * 0x100 == index;
  }

  /** The part of a sprite that covers a line draws it. */
  lemma PartDraws(e: Object, ctrl: byte, crop: int, d: nat)
    requires d < Height(ctrl)
    requires !OffScreen(e) && d / 8 < |Parts(e, ctrl, crop)|
    ensures Draws(Parts(e, ctrl, crop)[d / 8], e.y, e.tile, e.flags, e.x, ctrl, crop, d)
  {
    hide NesTile, Tall, Halves, OffScreen, Height, Draws;
    PartIndex(e, ctrl, d);
    var index := (if Tall(ctrl) then e.tile % 2 * 256 + e.tile / 2 * 2 else ctrl / 8 % 2 * 8 * 32 + e.tile)
      + Halves(e, ctrl)[d / 8];
    FieldsDraw(Part(e, ctrl, crop, d / 8, Halves(e, ctrl)[d / 8]), e, ctrl, crop, d, index, if Behind(e) then 1 else 3);
  }

  lemma LineInTile(ctrl: byte, d: nat)
    requires d < Height(ctrl)
    ensures var line := Height(ctrl) - 1 - d;
      line % 8 == 7 - d % 8 && (Height(ctrl) == 16 ==> line / 8 == 1 - d / 8) && (Height(ctrl) == 8 ==> d / 8 == 0)
  {}

  lemma PartsOfSprite(e: Object, ctrl: byte, crop: int)
    ensures |Parts(e, ctrl, crop)| == if e.y >= 239 then 0 else Height(ctrl) / 8
  {}

  /** The sprites before the n-th that are shown. */
  function ShownBefore(nes: Oam, n: nat): nat
    requires n <= 64
  {
    if n == 0 then 0 else ShownBefore(nes, n - 1) + if nes[4 * (n - 1)] < 239 then 1 else 0
  }

  lemma {:induction false} PackedSize(nes: Oam, ctrl: byte, crop: int, n: nat)
    requires n <= 64
    ensures |Packed(nes, ctrl, crop, n)| == ShownBefore(nes, n) * (Height(ctrl) / 8)
  {
    if n > 0 {
      PackedSize(nes, ctrl, crop, n - 1);
      PartsOfSprite(Entry(nes, n - 1), ctrl, crop);
    }
  }

  lemma {:induction false} PackedHolds(nes: Oam, ctrl: byte, crop: int, i: nat, n: nat, k: nat)
    requires i < n <= 64 && k < |Parts(Entry(nes, i), ctrl, crop)|
    ensures |Packed(nes, ctrl, crop, i)| + k < |Packed(nes, ctrl, crop, n)|
    ensures Packed(nes, ctrl, crop, n)[|Packed(nes, ctrl, crop, i)| + k] == Parts(Entry(nes, i), ctrl, crop)[k]
    decreases n
  {
    hide Parts, Entry;
    if i < n - 1 {
      PackedHolds(nes, ctrl, crop, i, n - 1, k);
    }
  }

  /** Every line of every shown sprite is drawn by the table's object for it: the objects of a sprite follow those of the
    * shown sprites before it. */
  lemma EveryLineIsDrawn(nes: Oam, ctrl: byte, crop: int, table: seq<byte>, i: nat, d: nat)
    requires Holds(table, Packed(nes, ctrl, crop, 64)) && i < 64 && d < Height(ctrl) && nes[4 * i] < 239
    ensures var k := ShownBefore(nes, i) * (Height(ctrl) / 8) + d / 8;
      k < 128 && Draws(Four(table, k), nes[4 * i], nes[4 * i + 1], nes[4 * i + 2], nes[4 * i + 3], ctrl, crop, d)
  {
    PackedSize(nes, ctrl, crop, i);
    PartsOfSprite(Entry(nes, i), ctrl, crop);
    PackedHolds(nes, ctrl, crop, i, 64, d / 8);
    PartDraws(Entry(nes, i), ctrl, crop, d);
    hide Packed, Parts, Draws;
  }
}
