/** The two sprite encoders: the scene builder's object table (tools/build_scene.py:17-34) and the expected live
  * object buffer (tools/verify_object_cache.py:11-28). */
module Sprites {
  import opened Bytes

  datatype Object = Object(x: byte, y: byte, tile: byte, flags: byte)

  const HIDDEN := Object(0, 240, 0, 0)

  type Oam = s: seq<byte> | |s| == 256 witness seq(256, _ => 0)

  function Entry(nes: Oam, i: nat): Object
    requires i < 64
  {
    Object(nes[4 * i + 3], nes[4 * i], nes[4 * i + 1], nes[4 * i + 2])
  }

  predicate OffScreen(e: Object) {
    e.y >= 239
  }

  /** Bit 5 of the control register: sprites of 8 by 16. */
  predicate Tall(ctrl: byte) {
    ctrl / 32 % 2 == 1
  }

  predicate Flipped(e: Object) {
    e.flags >= 0x80
  }

  predicate Behind(e: Object) {
    e.flags / 32 % 2 == 1
  }

  function Four(buffer: seq<byte>, k: nat): Object
    requires 4 * k + 4 <= |buffer|
  {
    Object(buffer[4 * k], buffer[4 * k + 1], buffer[4 * k + 2], buffer[4 * k + 3])
  }

  function Quad(o: Object): (r: seq<byte>)
    ensures |r| == 4
  {
    [o.x, o.y, o.tile, o.flags]
  }

  // ---- the scene builder ----

  /** One 8 by 8 object of a sprite: its row on screen and its half of the tile pair. */
  function Part(e: Object, ctrl: byte, crop: int, row: nat, half: nat): Object
    requires row < 2 && half < 2
  {
    var first := if Tall(ctrl) then e.tile % 2 * 256 + e.tile / 2 * 2 else ctrl / 8 % 2 * 8 * 32 + e.tile;
    var index := first + half;
    var priority := if Behind(e) then 1 else 3;
    Object(e.x, (e.y + 1 - crop + row * 8) % 0x100, index % 0x100,
           index / 256 % 2 + e.flags % 4 * 2 + priority * 16 + e.flags / 64 * 64)
  }

  /** The halves of the tile pair, in the order of the rows that show them. */
  function Halves(e: Object, ctrl: byte): (r: seq<nat>)
    ensures |r| <= 2 && forall i {:trigger r[i]} :: 0 <= i < |r| ==> r[i] < 2
  {
    if Tall(ctrl) && Flipped(e) then [1, 0] else if Tall(ctrl) then [0, 1] else [0]
  }

  function Parts(e: Object, ctrl: byte, crop: int): (r: seq<Object>)
    ensures |r| <= 2
  {
    if OffScreen(e) then []
    else
      var halves := Halves(e, ctrl);
      seq(|halves|, row requires 0 <= row < |halves| => Part(e, ctrl, crop, row, halves[row]))
  }

  /** The objects of the first n sprites, packed. */
  function Packed(nes: Oam, ctrl: byte, crop: int, n: nat): (r: seq<Object>)
    requires n <= 64
    ensures |r| <= 2 * n
  {
    if n == 0 then [] else Packed(nes, ctrl, crop, n - 1) + Parts(Entry(nes, n - 1), ctrl, crop)
  }

  /** A table whose first objects are these, the rest hidden and the last 32 bytes 0. */
  predicate Holds(table: seq<byte>, objects: seq<Object>) {
    |table| == 544 && |objects| <= 128
    && (forall k {:trigger Four(table, k)} :: 0 <= k < 128 ==> Four(table, k) == if k < |objects| then objects[k] else HIDDEN)
    && forall j {:trigger table[j]} :: 512 <= j < 544 ==> table[j] == 0
  }

  method Blank() returns (table: array<byte>)
    ensures fresh(table) && Holds(table[..], [])
  {
    table := new byte[544](j requires 0 <= j < 544 => if j < 512 && j % 4 == 1 then 240 else 0);
    forall k | 0 <= k < 128 ensures Four(table[..], k) == HIDDEN {
      assert 4 * k % 4 == 0 && (4 * k + 1) % 4 == 1 && (4 * k + 2) % 4 == 2 && (4 * k + 3) % 4 == 3;
    }
  }

  lemma WriteHolds(table: seq<byte>, objects: seq<Object>, o: Object)
    requires Holds(table, objects) && |objects| < 128
    ensures Holds(Write(table, 4 * |objects|, Quad(o)), objects + [o])
  {
    var n := |objects|;
    var after := Write(table, 4 * n, Quad(o));
    forall k | 0 <= k < 128
      ensures Four(after, k) == if k <= n then (objects + [o])[k] else HIDDEN
    {
      assert Four(table, k) == if k < n then objects[k] else HIDDEN;
    }
  }

  /** Crop is the number of lines cut from the top. */
  method SpriteOam(nes: seq<byte>, ctrl: byte, crop: int) returns (r: Option<seq<byte>>)
    ensures r.Some? <==> |nes| == 256
    ensures r.Some? ==> Holds(r.value, Packed(nes, ctrl, crop, 64))
  {
    hide Holds, Part, Tall, Flipped, Write, Quad, Halves, OffScreen, Entry;
    if |nes| != 256 {
      return None;
    }
    var table := Blank();
    var out := 0;
    for i := 0 to 64
      invariant out == |Packed(nes, ctrl, crop, i)| && Holds(table[..], Packed(nes, ctrl, crop, i))
      invariant fresh(table) && table.Length == 544
    {
      var e := Entry(nes, i);
      ghost var before := Packed(nes, ctrl, crop, i);
      if OffScreen(e) {
        assert before + [] == before;
        continue;
      }
      var parts := Halves(e, ctrl);
      ghost var all := Parts(e, ctrl, crop);
      assert before + all[..0] == before;
      for row := 0 to |parts|
        invariant out == |before| + row && Holds(table[..], before + all[..row])
        invariant fresh(table) && table.Length == 544
      {
        var o := Part(e, ctrl, crop, row, parts[row]);
        WriteHolds(table[..], before + all[..row], o);
        assert before + all[..row] + [o] == before + all[..row + 1];
        Overwrite(table, 4 * out, Quad(o));
        out := out + 1;
      }
      assert all[..|parts|] == all;
    }
    r := Some(table[..]);
  }

  // ---- the expected buffer ----

  function Shade(e: Object): (r: byte)
    ensures r <= 0xF6
  {
    e.flags / 64 * 64 + e.flags % 4 * 2 + (if Behind(e) then 0x10 else 0x30)
  }

  /** The other tile of a pair. */
  function Toggled(tile: byte): byte {
    if tile % 2 == 0 then tile + 1 else tile - 1
  }

  /** Both object slots of a sprite. */
  function Slots(e: Object, ctrl: byte): (r: seq<Object>)
    ensures |r| == 2
  {
    if OffScreen(e) then [HIDDEN, HIDDEN]
    else
      var y := (e.y - 7) % 0x100;
      if Tall(ctrl) then
        var flags := Shade(e) + e.tile % 2;
        var top := e.tile / 2 * 2 + (if Flipped(e) then 1 else 0);
        [Object(e.x, y, top, flags), Object(e.x, (y + 8) % 0x100, Toggled(top), flags)]
      else [Object(e.x, y, e.tile, Shade(e) + ctrl / 8 % 2), HIDDEN]
  }

  /** Two slots for each of the first n sprites. */
  function Slotted(nes: Oam, ctrl: byte, n: nat): (r: seq<Object>)
    requires n <= 64
    ensures |r| == 2 * n
  {
    if n == 0 then [] else Slotted(nes, ctrl, n - 1) + Slots(Entry(nes, n - 1), ctrl)
  }

  predicate Lists(buffer: seq<byte>, objects: seq<Object>) {
    |buffer| == 4 * |objects|
    && forall k {:trigger Four(buffer, k)} {:trigger objects[k]} :: 0 <= k < |objects| ==> Four(buffer, k) == objects[k]
  }

  lemma ListsTwoMore(buffer: seq<byte>, objects: seq<Object>, a: Object, b: Object)
    requires Lists(buffer, objects)
    ensures Lists(buffer + (Quad(a) + Quad(b)), objects + [a, b])
  {
    var n := |objects|;
    var after := buffer + (Quad(a) + Quad(b));
    forall k | 0 <= k < n + 2 ensures Four(after, k) == (objects + [a, b])[k] {
      if k < n {
        assert Four(after, k) == Four(buffer, k) == objects[k];
      }
    }
  }

  method ExpectedObjects(nes: seq<byte>, ctrl: byte) returns (r: Option<seq<byte>>)
    ensures r.Some? <==> |nes| == 256
    ensures r.Some? ==> Lists(r.value, Slotted(nes, ctrl, 64))
  {
    hide Lists, Quad, Toggled, Shade, Entry, Behind;
    if |nes| != 256 {
      return None;
    }
    var buffer: seq<byte> := [];
    NothingListed();
    for i := 0 to 64
      invariant Lists(buffer, Slotted(nes, ctrl, i))
    {
      var e := Entry(nes, i);
      var first, second := HIDDEN, HIDDEN;
      if !OffScreen(e) {
        var y := (e.y - 7) % 0x100;
        if Tall(ctrl) {
          var flags := Shade(e) + e.tile % 2;
          var top := e.tile / 2 * 2 + (if Flipped(e) then 1 else 0);
          first, second := Object(e.x, y, top, flags), Object(e.x, (y + 8) % 0x100, Toggled(top), flags);
        } else {
          first := Object(e.x, y, e.tile, Shade(e) + ctrl / 8 % 2);
        }
      }
      ListsTwoMore(buffer, Slotted(nes, ctrl, i), first, second);
      buffer := buffer + (Quad(first) + Quad(second));
    }
    r := Some(buffer);
  }

  lemma NothingListed()
    ensures Lists([], [])
  {}

  // ---- their agreement ----

  function Visible(objects: seq<Object>): (r: seq<Object>)
    ensures |r| <= |objects|
  {
    if objects == [] then []
    else
      var before, last := Visible(objects[..|objects| - 1]), objects[|objects| - 1];
      if last == HIDDEN then before else before + [last]
  }

  lemma VisibleTwoMore(objects: seq<Object>, a: Object, b: Object)
    ensures Visible(objects + [a, b])
      == Visible(objects) + (if a == HIDDEN then [] else [a]) + (if b == HIDDEN then [] else [b])
  {
    var two, one := objects + [a, b], objects + [a];
    assert two[..|two| - 1] == one && one[..|one| - 1] == objects;
  }

  /** The shown objects of one sprite are the same eight columns either way, and none looks hidden. */
  lemma SpriteAgrees(e: Object, ctrl: byte)
    ensures var slots := Slots(e, ctrl); var parts := Parts(e, ctrl, 8);
      (OffScreen(e) ==> parts == [] && slots == [HIDDEN, HIDDEN])
      && (!OffScreen(e) && Tall(ctrl) ==> parts == slots && slots[0] != HIDDEN && slots[1] != HIDDEN)
      && (!OffScreen(e) && !Tall(ctrl) ==> parts == [slots[0]] && slots[0] != HIDDEN && slots[1] == HIDDEN)
  {
    if !OffScreen(e) {
      if Tall(ctrl) {
        TallAgrees(e, ctrl);
      } else {
        SmallAgrees(e, ctrl);
      }
    }
  }

  lemma TallAgrees(e: Object, ctrl: byte)
    requires !OffScreen(e) && Tall(ctrl)
    ensures Parts(e, ctrl, 8) == Slots(e, ctrl) && Slots(e, ctrl)[0] != HIDDEN && Slots(e, ctrl)[1] != HIDDEN
  {
    var half := if Flipped(e) then 1 else 0;
    var q := e.tile / 2;
    TileBits(q, e.tile % 2, half);
    TileBits(q, e.tile % 2, 1 - half);
    Below(e.y, 8);
  }

  lemma SmallAgrees(e: Object, ctrl: byte)
    requires !OffScreen(e) && !Tall(ctrl)
    ensures Parts(e, ctrl, 8) == [Slots(e, ctrl)[0]] && Slots(e, ctrl)[0] != HIDDEN && Slots(e, ctrl)[1] == HIDDEN
  {
    var bank := ctrl / 8 % 2;
    assert (bank * 8 * 32 + e.tile) % 0x100 == e.tile && (bank * 8 * 32 + e.tile) / 256 % 2 == bank;
  }

  lemma TileBits(q: nat, bank: nat, half: nat)
    requires q < 128 && bank < 2 && half < 2
    ensures (bank * 256 + q * 2 + half) % 0x100 == q * 2 + half && (bank * 256 + q * 2 + half) / 256 % 2 == bank
    ensures Toggled(q * 2 + half) == q * 2 + (1 - half)
  {}

  lemma Below(y: byte, lines: nat)
    ensures ((y - 7) % 0x100 + lines) % 0x100 == (y - 7 + lines) % 0x100
  {}

  lemma {:induction false} PackedIsVisible(nes: Oam, ctrl: byte, n: nat)
    requires n <= 64
    ensures Packed(nes, ctrl, 8, n) == Visible(Slotted(nes, ctrl, n))
    ensures HIDDEN !in Packed(nes, ctrl, 8, n)
  {
    hide Part, Tall, OffScreen, Slots, Parts, Visible;
    if n == 0 {
      NothingVisible();
    } else {
      PackedIsVisible(nes, ctrl, n - 1);
      var e, before := Entry(nes, n - 1), Slotted(nes, ctrl, n - 1);
      var slots := Slots(e, ctrl);
      SpriteAgrees(e, ctrl);
      assert slots == [slots[0], slots[1]];
      VisibleTwoMore(before, slots[0], slots[1]);
      assert Parts(e, ctrl, 8) == (if slots[0] == HIDDEN then [] else [slots[0]]) + (if slots[1] == HIDDEN then [] else [slots[1]]);
    }
  }

  lemma NothingVisible()
    ensures Visible([]) == []
  {}

  /** Dropping the hidden slots of the expected buffer leaves exactly the leading objects of the table cut by eight
    * lines; every later object of the table is hidden. */
  lemma {:induction false} EncodersAgree(nes: Oam, ctrl: byte, table: seq<byte>, buffer: seq<byte>, objects: seq<Object>)
    requires Holds(table, Packed(nes, ctrl, 8, 64)) && Lists(buffer, Slotted(nes, ctrl, 64)) && Lists(buffer, objects)
    ensures var shown := Visible(objects);
      |shown| <= 128
      && forall k {:trigger Four(table, k)} :: 0 <= k < 128 ==>
           if k < |shown| then Four(table, k) == shown[k] && shown[k] != HIDDEN else Four(table, k) == HIDDEN
  {
    hide Packed, Slotted, Visible;
    PackedIsVisible(nes, ctrl, 64);
    assert forall k {:trigger objects[k]} :: 0 <= k < |objects| ==> objects[k] == Four(buffer, k) == Slotted(nes, ctrl, 64)[k];
    assert objects == Slotted(nes, ctrl, 64);
  }
}
