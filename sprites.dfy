/**
 * Sprite drawing (Dxyn). Row `i` of an `n`-row sprite is the byte at
 * `I + i`; it is XORed into the frame buffer at column `Vx`, row `Vy + i`.
 * When `Vx` is not a multiple of 8 the row straddles two frame-buffer
 * bytes: its top `8 - r` bits go into the first one shifted right by
 * `r = Vx % 8`, the rest into the next one shifted left by `8 - r`. VF is
 * cleared first and set to 1 when a row meets a bit that is already set.
 *
 * The registers are read afresh for every row, as the repository's
 * references into the register file are: when `x` or `y` is F, setting the
 * flag moves the rest of the sprite.
 */
module Sprites {
  import opened Bytes
  import opened MemoryMap

  /** The number of rows of a sprite: the `n` nibble of Dxyn, as a count. */
  type Height = n: int | 0 <= n < 0x10

  /** The address of sprite row `row`: `I + row`. */
  function SourceAddr(iReg: word, row: int): int
  {
    Addr(iReg + row)
  }

  /**
   * The first (`part` 0) or second (`part` 1) frame-buffer byte that sprite
   * row `row` meets when drawn at (`vx`, `vy`): `0xF00 + (vy + row) * 8 + vx / 8 + part`.
   * No clipping is done; addresses past 0xFFF wrap.
   */
  function DestAddr(vx: byte, vy: byte, row: int, part: int): int
  {
    Addr(FrameStart + (vy as int + row) * 8 + (vx / 8) as int + part)
  }

  /** The bits of sprite byte `b` that go into destination byte `part` at bit offset `r`. */
  function RowPart(b: byte, r: bv8, part: int): byte
    requires r < 8
  {
    if part == 0 then b >> r else b << (8 - r)
  }

  /**
   * The memory one sprite row leaves when XORed in at destination bytes `j0`
   * and `j1` with bit offset `r`: on a byte boundary only `j0` is written,
   * otherwise `j0` gets the row shifted right and `j1` the rest shifted left.
   */
  function RowWrite(mem: Memory, b: byte, r: bv8, j0: int, j1: int): Memory
    requires r < 8 && 0 <= j0 < MemorySize && 0 <= j1 < MemorySize
  {
    if r == 0 then mem[j0 := Xor(mem[j0], b)]
    else mem[j0 := Xor(mem[j0], b >> r)][j1 := Xor(mem[j1], b << (8 - r))]
  }

  /** Whether that row meets a bit that is already set, tested in the same two cases. */
  predicate RowHit(mem: Memory, b: byte, r: bv8, j0: int, j1: int)
    requires r < 8 && 0 <= j0 < MemorySize && 0 <= j1 < MemorySize
  {
    if r == 0 then Overlap(mem[j0], b)
    else Overlap(mem[j0], b >> r) || Overlap(mem[j1], b << (8 - r))
  }

  /** One iteration of the row loop of Dxyn, with the registers as they are at that point. */
  function DrawRow(mem: Memory, v: Registers, iReg: word, x: Reg, y: Reg, row: nat): (Memory, Registers)
  {
    var b := mem[SourceAddr(iReg, row)];
    var r := v[x] % 8;
    var j0, j1 := DestAddr(v[x], v[y], row, 0), DestAddr(v[x], v[y], row, 1);
    (RowWrite(mem, b, r, j0, j1), if RowHit(mem, b, r, j0, j1) then v[VF := 1] else v)
  }

  /** The first `k` iterations of the row loop. */
  function DrawRows(mem: Memory, v: Registers, iReg: word, x: Reg, y: Reg, k: nat): (Memory, Registers)
    decreases k
  {
    if k == 0 then (mem, v)
    else
      var (m, w) := DrawRows(mem, v, iReg, x, y, k - 1);
      DrawRow(m, w, iReg, x, y, k - 1)
  }

  /** Dxyn on memory and registers: clear VF, then draw the `n` rows. */
  function Draw(mem: Memory, v: Registers, iReg: word, x: Reg, y: Reg, n: Height): (Memory, Registers)
  {
    DrawRows(mem, v[VF := 0], iReg, x, y, n)
  }

  /** Whether sprite row `row` meets an already set frame-buffer bit. */
  predicate RowCollides(mem: Memory, iReg: word, vx: byte, vy: byte, row: int)
  {
    var b := mem[SourceAddr(iReg, row)];
    var r := vx % 8;
    Overlap(mem[DestAddr(vx, vy, row, 0)], RowPart(b, r, 0))
      || Overlap(mem[DestAddr(vx, vy, row, 1)], RowPart(b, r, 1))
  }

  /** Whether frame-buffer byte `part` of row `row` is written at all (the second one only off a byte boundary). */
  predicate Touched(vx: byte, row: int, part: int)
  {
    part == 0 || vx % 8 != 0
  }

  /** No sprite row is read from a byte that some row of the same draw writes. */
  predicate Disjoint(iReg: word, vx: byte, vy: byte, n: int)
  {
    forall i, j, p :: 0 <= i < n && 0 <= j < n && 0 <= p < 2 ==>
      SourceAddr(iReg, i) != DestAddr(vx, vy, j, p)
  }

  /** The destination bytes of the rows of one sprite (at most 16 rows) are pairwise distinct. */
  lemma DestDistinct(vx: byte, vy: byte, i: int, p: int, j: int, q: int)
    requires 0 <= i < 16 && 0 <= j < 16 && 0 <= p < 2 && 0 <= q < 2
    requires DestAddr(vx, vy, i, p) == DestAddr(vx, vy, j, q)
    ensures i == j && p == q
  {
    var base := FrameStart + vy as int * 8 + (vx / 8) as int;
    AddrInjective(base + i * 8 + p, base + j * 8 + q);
  }

  /** The two destination bytes of a row are different cells. */
  lemma DestPartsDistinct(vx: byte, vy: byte, row: int)
    ensures DestAddr(vx, vy, row, 0) != DestAddr(vx, vy, row, 1)
  {
    var base := FrameStart + (vy as int + row) * 8 + (vx / 8) as int;
    AddrInjective(base, base + 1);
  }

  /** Both branches of the row write XOR each destination byte with its part of the row. */
  lemma RowWriteUniform(mem: Memory, b: byte, r: bv8, j0: int, j1: int)
    requires r < 8 && 0 <= j0 < MemorySize && 0 <= j1 < MemorySize && j0 != j1
    ensures RowWrite(mem, b, r, j0, j1) == mem[j0 := Xor(mem[j0], RowPart(b, r, 0))][j1 := Xor(mem[j1], RowPart(b, r, 1))]
  {
    if r == 0 {
      var m := mem[j0 := Xor(mem[j0], b)];
      XorZero(m[j1]);
      assert m[j1 := Xor(m[j1], 0)] == m;
    }
  }

  /** Both branches of the collision test ask whether some destination byte shares a bit with its part. */
  lemma RowHitUniform(mem: Memory, b: byte, r: bv8, j0: int, j1: int)
    requires r < 8 && 0 <= j0 < MemorySize && 0 <= j1 < MemorySize
    ensures RowHit(mem, b, r, j0, j1) == (Overlap(mem[j0], RowPart(b, r, 0)) || Overlap(mem[j1], RowPart(b, r, 1)))
  {
  }

  /** The memory one row leaves, uniformly for both branches of the loop body. */
  lemma DrawRowMemory(mem: Memory, v: Registers, iReg: word, x: Reg, y: Reg, row: nat)
    ensures var vx, vy := v[x], v[y];
      var b := mem[SourceAddr(iReg, row)];
      var d0, d1 := DestAddr(vx, vy, row, 0), DestAddr(vx, vy, row, 1);
      DrawRow(mem, v, iReg, x, y, row).0
        == mem[d0 := Xor(mem[d0], RowPart(b, vx % 8, 0))][d1 := Xor(mem[d1], RowPart(b, vx % 8, 1))]
  {
    DestPartsDistinct(v[x], v[y], row);
    RowWriteUniform(mem, mem[SourceAddr(iReg, row)], v[x] % 8, DestAddr(v[x], v[y], row, 0), DestAddr(v[x], v[y], row, 1));
  }

  /** The registers one row leaves: VF is set exactly when the row collides. */
  lemma DrawRowFlag(mem: Memory, v: Registers, iReg: word, x: Reg, y: Reg, row: nat)
    ensures DrawRow(mem, v, iReg, x, y, row).1
         == if RowCollides(mem, iReg, v[x], v[y], row) then v[VF := 1] else v
  {
    RowHitUniform(mem, mem[SourceAddr(iReg, row)], v[x] % 8, DestAddr(v[x], v[y], row, 0), DestAddr(v[x], v[y], row, 1));
  }

  /** What one row does when neither `x` nor `y` is F, byte by byte. */
  lemma DrawRowEffect(mem: Memory, v: Registers, iReg: word, x: Reg, y: Reg, row: nat)
    requires x != VF && y != VF && row < 16
    ensures var vx, vy := v[x], v[y];
      var b := mem[SourceAddr(iReg, row)];
      var m := DrawRow(mem, v, iReg, x, y, row).0;
      && (forall p :: 0 <= p < 2 ==>
            m[DestAddr(vx, vy, row, p)] == Xor(mem[DestAddr(vx, vy, row, p)], RowPart(b, vx % 8, p)))
      && (forall a :: 0 <= a < MemorySize && a != DestAddr(vx, vy, row, 0) && a != DestAddr(vx, vy, row, 1) ==>
            m[a] == mem[a])
    ensures DrawRow(mem, v, iReg, x, y, row).1
         == if RowCollides(mem, iReg, v[x], v[y], row) then v[VF := 1] else v
  {
    var vx, vy := v[x], v[y];
    var d0, d1 := DestAddr(vx, vy, row, 0), DestAddr(vx, vy, row, 1);
    if d0 == d1 {
      DestDistinct(vx, vy, row, 0, row, 1);
    }
    DrawRowMemory(mem, v, iReg, x, y, row);
    DrawRowFlag(mem, v, iReg, x, y, row);
  }

  /**
   * Frame property of the row loop, for `x`, `y` other than F: memory
   * changes only at the bytes the rows touch, and only VF among the
   * registers.
   */
  lemma {:induction false} DrawRowsFrame(mem: Memory, v: Registers, iReg: word, x: Reg, y: Reg, k: nat)
    requires x != VF && y != VF && k <= 16
    ensures var (m, w) := DrawRows(mem, v, iReg, x, y, k);
      && (forall a :: 0 <= a < MemorySize
            && (forall i, p :: 0 <= i < k && 0 <= p < 2 && Touched(v[x], i, p) ==> a != DestAddr(v[x], v[y], i, p))
            ==> m[a] == mem[a])
      && (forall j :: 0 <= j < 16 && j != VF ==> w[j] == v[j])
      && (w[VF] == v[VF] || w[VF] == 1)
  {
    if k > 0 {
      DrawRowsFrame(mem, v, iReg, x, y, k - 1);
      var (m, w) := DrawRows(mem, v, iReg, x, y, k - 1);
      DrawRowEffect(m, w, iReg, x, y, k - 1);
    }
  }

  /** Address `a` is none of the destination bytes of rows `0..k-1`. */
  predicate Untouched(vx: byte, vy: byte, k: int, a: int)
  {
    forall i, p :: 0 <= i < k && 0 <= p < 2 ==> a != DestAddr(vx, vy, i, p)
  }

  /** `after` agrees with `before` everywhere rows `0..k-1` do not write. */
  predicate SameOutside(before: Memory, after: Memory, vx: byte, vy: byte, k: int)
  {
    forall a :: 0 <= a < MemorySize && Untouched(vx, vy, k, a) ==> after[a] == before[a]
  }

  /** In `after`, each destination byte of rows `0..k-1` is its `before` value XOR its part of the row read from `before`. */
  predicate Xored(before: Memory, after: Memory, iReg: word, vx: byte, vy: byte, k: int)
  {
    forall i, p :: 0 <= i < k && 0 <= p < 2 ==>
      after[DestAddr(vx, vy, i, p)]
        == Xor(before[DestAddr(vx, vy, i, p)], RowPart(before[SourceAddr(iReg, i)], vx % 8, p))
  }

  /** Whether one of rows `0..k-1` collides with `mem`. */
  predicate AnyCollides(mem: Memory, iReg: word, vx: byte, vy: byte, k: nat)
  {
    k > 0 && (AnyCollides(mem, iReg, vx, vy, k - 1) || RowCollides(mem, iReg, vx, vy, k - 1))
  }

  /** `AnyCollides` is the existential it is named for. */
  lemma {:induction false} AnyCollidesExists(mem: Memory, iReg: word, vx: byte, vy: byte, k: nat)
    ensures AnyCollides(mem, iReg, vx, vy, k) <==> exists i :: 0 <= i < k && RowCollides(mem, iReg, vx, vy, i)
  {
    if k > 0 {
      AnyCollidesExists(mem, iReg, vx, vy, k - 1);
    }
  }

  /** Each destination byte of row `row` is untouched by the earlier rows. */
  lemma LaterRowUntouched(vx: byte, vy: byte, row: int, p: int)
    requires 0 <= row < 16 && 0 <= p < 2
    ensures Untouched(vx, vy, row, DestAddr(vx, vy, row, p))
  {
    forall i, q | 0 <= i < row && 0 <= q < 2
      ensures DestAddr(vx, vy, row, p) != DestAddr(vx, vy, i, q)
    {
      if DestAddr(vx, vy, row, p) == DestAddr(vx, vy, i, q) {
        DestDistinct(vx, vy, row, p, i, q);
      }
    }
  }

  /**
   * When the earlier rows have written only their own destinations, row
   * `row` reads its sprite byte and its destination bytes as they were
   * before the draw, and so collides exactly when it did before.
   */
  lemma RowInputsUnchanged(mem: Memory, m: Memory, iReg: word, vx: byte, vy: byte, n: Height, row: nat)
    requires row < n && Disjoint(iReg, vx, vy, n)
    requires SameOutside(mem, m, vx, vy, row)
    ensures m[SourceAddr(iReg, row)] == mem[SourceAddr(iReg, row)]
    ensures m[DestAddr(vx, vy, row, 0)] == mem[DestAddr(vx, vy, row, 0)]
    ensures m[DestAddr(vx, vy, row, 1)] == mem[DestAddr(vx, vy, row, 1)]
    ensures RowCollides(m, iReg, vx, vy, row) == RowCollides(mem, iReg, vx, vy, row)
  {
    LaterRowUntouched(vx, vy, row, 0);
    LaterRowUntouched(vx, vy, row, 1);
    assert Untouched(vx, vy, row, SourceAddr(iReg, row));
  }

  /** A later row leaves the destination bytes of the earlier rows alone. */
  lemma EarlierRowsKept(vx: byte, vy: byte, row: int, i: int, p: int)
    requires 0 <= i < row < 16 && 0 <= p < 2
    ensures DestAddr(vx, vy, i, p) != DestAddr(vx, vy, row, 0)
    ensures DestAddr(vx, vy, i, p) != DestAddr(vx, vy, row, 1)
  {
    if DestAddr(vx, vy, i, p) == DestAddr(vx, vy, row, 0) {
      DestDistinct(vx, vy, i, p, row, 0);
    }
    if DestAddr(vx, vy, i, p) == DestAddr(vx, vy, row, 1) {
      DestDistinct(vx, vy, i, p, row, 1);
    }
  }

  /** One more row keeps `SameOutside`. */
  lemma SameOutsideStep(mem: Memory, m: Memory, w: Registers, iReg: word, x: Reg, y: Reg, row: nat)
    requires x != VF && y != VF && row < 16
    requires SameOutside(mem, m, w[x], w[y], row)
    ensures SameOutside(mem, DrawRow(m, w, iReg, x, y, row).0, w[x], w[y], row + 1)
  {
    var vx, vy := w[x], w[y];
    DrawRowEffect(m, w, iReg, x, y, row);
    var m' := DrawRow(m, w, iReg, x, y, row).0;
    forall a | 0 <= a < MemorySize && Untouched(vx, vy, row + 1, a)
      ensures m'[a] == mem[a]
    {
      assert a != DestAddr(vx, vy, row, 0) && a != DestAddr(vx, vy, row, 1);
      assert Untouched(vx, vy, row, a);
    }
  }

  /** One more row keeps `Xored`, when the row reads what it read before the draw. */
  lemma XoredStep(mem: Memory, m: Memory, w: Registers, iReg: word, x: Reg, y: Reg, row: nat)
    requires x != VF && y != VF && row < 16
    requires Xored(mem, m, iReg, w[x], w[y], row)
    requires m[SourceAddr(iReg, row)] == mem[SourceAddr(iReg, row)]
    requires m[DestAddr(w[x], w[y], row, 0)] == mem[DestAddr(w[x], w[y], row, 0)]
    requires m[DestAddr(w[x], w[y], row, 1)] == mem[DestAddr(w[x], w[y], row, 1)]
    ensures Xored(mem, DrawRow(m, w, iReg, x, y, row).0, iReg, w[x], w[y], row + 1)
  {
    var vx, vy := w[x], w[y];
    DrawRowEffect(m, w, iReg, x, y, row);
    var m' := DrawRow(m, w, iReg, x, y, row).0;
    forall i, p | 0 <= i < row + 1 && 0 <= p < 2
      ensures m'[DestAddr(vx, vy, i, p)]
           == Xor(mem[DestAddr(vx, vy, i, p)], RowPart(mem[SourceAddr(iReg, i)], vx % 8, p))
    {
      if i < row {
        EarlierRowsKept(vx, vy, row, i, p);
      }
    }
  }

  /** One more row keeps VF telling whether some row so far collided. */
  lemma FlagStep(mem: Memory, m: Memory, v: Registers, w: Registers, iReg: word, x: Reg, y: Reg, row: nat)
    requires x != VF && y != VF
    requires w == v[VF := if AnyCollides(mem, iReg, v[x], v[y], row) then 1 else v[VF]]
    requires RowCollides(m, iReg, v[x], v[y], row) == RowCollides(mem, iReg, v[x], v[y], row)
    ensures DrawRow(m, w, iReg, x, y, row).1
         == v[VF := if AnyCollides(mem, iReg, v[x], v[y], row + 1) then 1 else v[VF]]
  {
    DrawRowFlag(m, w, iReg, x, y, row);
  }

  /**
   * The row loop, for `x`, `y` other than F and a sprite that does not
   * overlap what it draws on: each destination byte is XORed with its part
   * of the row, nothing else in memory changes, and VF becomes 1 exactly
   * when some row collides with the memory as it was before the draw.
   */
  lemma {:induction false} DrawRowsXor(mem: Memory, v: Registers, iReg: word, x: Reg, y: Reg, n: Height, k: nat)
    requires x != VF && y != VF && k <= n
    requires Disjoint(iReg, v[x], v[y], n)
    ensures var (m, w) := DrawRows(mem, v, iReg, x, y, k);
      && Xored(mem, m, iReg, v[x], v[y], k)
      && SameOutside(mem, m, v[x], v[y], k)
      && w == v[VF := if AnyCollides(mem, iReg, v[x], v[y], k) then 1 else v[VF]]
  {
    if k > 0 {
      var row := k - 1;
      DrawRowsXor(mem, v, iReg, x, y, n, row);
      var (m, w) := DrawRows(mem, v, iReg, x, y, row);
      assert w[x] == v[x] && w[y] == v[y];
      RowInputsUnchanged(mem, m, iReg, v[x], v[y], n, row);
      SameOutsideStep(mem, m, w, iReg, x, y, row);
      XoredStep(mem, m, w, iReg, x, y, row);
      FlagStep(mem, m, v, w, iReg, x, y, row);
    }
  }

  /**
   * Dxyn for `x`, `y` other than F and a sprite that does not overlap what
   * it draws on: each destination byte is XORed with its part of the row,
   * nothing else in memory changes, and among the registers only VF does,
   * becoming 1 exactly when some row collides with the memory as it was.
   */
  lemma DrawXor(mem: Memory, v: Registers, iReg: word, x: Reg, y: Reg, n: Height)
    requires x != VF && y != VF
    requires Disjoint(iReg, v[x], v[y], n)
    ensures Xored(mem, Draw(mem, v, iReg, x, y, n).0, iReg, v[x], v[y], n)
    ensures SameOutside(mem, Draw(mem, v, iReg, x, y, n).0, v[x], v[y], n)
    ensures Draw(mem, v, iReg, x, y, n).1 == v[VF := if AnyCollides(mem, iReg, v[x], v[y], n) then 1 else 0]
  {
    DrawRowsXor(mem, v[VF := 0], iReg, x, y, n, n);
  }

  /** The sprite rows themselves are not written by a draw that does not overlap them. */
  lemma SourcesKept(mem: Memory, m: Memory, iReg: word, vx: byte, vy: byte, n: Height)
    requires Disjoint(iReg, vx, vy, n)
    requires SameOutside(mem, m, vx, vy, n)
    ensures forall i :: 0 <= i < n ==> m[SourceAddr(iReg, i)] == mem[SourceAddr(iReg, i)]
  {
    forall i | 0 <= i < n
      ensures m[SourceAddr(iReg, i)] == mem[SourceAddr(iReg, i)]
    {
      assert Untouched(vx, vy, n, SourceAddr(iReg, i));
    }
  }

  /** XORing the same parts in twice gives back the original memory. */
  lemma XoredTwice(mem: Memory, m1: Memory, m2: Memory, iReg: word, vx: byte, vy: byte, n: Height)
    requires Disjoint(iReg, vx, vy, n)
    requires Xored(mem, m1, iReg, vx, vy, n) && SameOutside(mem, m1, vx, vy, n)
    requires Xored(m1, m2, iReg, vx, vy, n) && SameOutside(m1, m2, vx, vy, n)
    ensures m2 == mem
  {
    SourcesKept(mem, m1, iReg, vx, vy, n);
    forall a | 0 <= a < MemorySize
      ensures m2[a] == mem[a]
    {
      if !Untouched(vx, vy, n, a) {
        var i, p :| 0 <= i < n && 0 <= p < 2 && a == DestAddr(vx, vy, i, p);
        XorTwice(mem[a], RowPart(mem[SourceAddr(iReg, i)], vx % 8, p));
      }
    }
  }

  /**
   * Drawing the same sprite twice at the same place restores memory, when
   * neither `x` nor `y` is F and the sprite does not overlap what it draws on.
   */
  lemma DrawTwiceRestores(mem: Memory, v: Registers, iReg: word, x: Reg, y: Reg, n: Height)
    requires x != VF && y != VF
    requires Disjoint(iReg, v[x], v[y], n)
    ensures var (m1, v1) := Draw(mem, v, iReg, x, y, n);
      Draw(m1, v1, iReg, x, y, n).0 == mem
  {
    var (m1, v1) := Draw(mem, v, iReg, x, y, n);
    DrawXor(mem, v, iReg, x, y, n);
    assert v1[x] == v[x] && v1[y] == v[y];
    DrawXor(m1, v1, iReg, x, y, n);
    XoredTwice(mem, m1, Draw(m1, v1, iReg, x, y, n).0, iReg, v[x], v[y], n);
  }

  /** No row collides with destination bytes that are all clear. */
  lemma NoCollisionOnClear(mem: Memory, iReg: word, vx: byte, vy: byte, k: nat)
    requires forall i, p :: 0 <= i < k && 0 <= p < 2 ==> mem[DestAddr(vx, vy, i, p)] == 0
    ensures !AnyCollides(mem, iReg, vx, vy, k)
  {
    AnyCollidesExists(mem, iReg, vx, vy, k);
    forall i | 0 <= i < k
      ensures !RowCollides(mem, iReg, vx, vy, i)
    {
      assert mem[DestAddr(vx, vy, i, 0)] == 0 && mem[DestAddr(vx, vy, i, 1)] == 0;
    }
  }

  /** A row drawn onto clear bytes collides with itself exactly when it is nonzero. */
  lemma SelfCollision(mem: Memory, m1: Memory, iReg: word, vx: byte, vy: byte, n: Height, i: int)
    requires 0 <= i < n
    requires m1[SourceAddr(iReg, i)] == mem[SourceAddr(iReg, i)]
    requires mem[DestAddr(vx, vy, i, 0)] == 0 && mem[DestAddr(vx, vy, i, 1)] == 0
    requires Xored(mem, m1, iReg, vx, vy, n)
    ensures RowCollides(m1, iReg, vx, vy, i) <==> mem[SourceAddr(iReg, i)] != 0
  {
    var b := mem[SourceAddr(iReg, i)];
    var r := vx % 8;
    assert m1[DestAddr(vx, vy, i, 0)] == Xor(0, RowPart(b, r, 0));
    assert m1[DestAddr(vx, vy, i, 1)] == Xor(0, RowPart(b, r, 1));
    XorZeroLeft(RowPart(b, r, 0));
    XorZeroLeft(RowPart(b, r, 1));
    OverlapSelf(RowPart(b, r, 0));
    OverlapSelf(RowPart(b, r, 1));
    SplitZero(b, r);
  }

  /**
   * Drawing onto bytes that are all clear reports no collision; drawing the
   * same sprite again then reports a collision exactly when some sprite row
   * is nonzero (the sprite erases itself).
   */
  lemma DrawOnClearedCollidesSecondTime(mem: Memory, v: Registers, iReg: word, x: Reg, y: Reg, n: Height)
    requires x != VF && y != VF
    requires Disjoint(iReg, v[x], v[y], n)
    requires forall i, p :: 0 <= i < n && 0 <= p < 2 ==> mem[DestAddr(v[x], v[y], i, p)] == 0
    ensures var (m1, v1) := Draw(mem, v, iReg, x, y, n);
      && v1[VF] == 0
      && (Draw(m1, v1, iReg, x, y, n).1[VF] == 1 <==> exists i :: 0 <= i < n && mem[SourceAddr(iReg, i)] != 0)
  {
    var vx, vy := v[x], v[y];
    var (m1, v1) := Draw(mem, v, iReg, x, y, n);
    DrawXor(mem, v, iReg, x, y, n);
    NoCollisionOnClear(mem, iReg, vx, vy, n);
    assert v1[x] == vx && v1[y] == vy;
    DrawXor(m1, v1, iReg, x, y, n);
    SourcesKept(mem, m1, iReg, vx, vy, n);
    forall i | 0 <= i < n
      ensures RowCollides(m1, iReg, vx, vy, i) <==> mem[SourceAddr(iReg, i)] != 0
    {
      assert mem[DestAddr(vx, vy, i, 0)] == 0 && mem[DestAddr(vx, vy, i, 1)] == 0;
      SelfCollision(mem, m1, iReg, vx, vy, n, i);
    }
    AnyCollidesExists(m1, iReg, vx, vy, n);
  }

  /**
   * The pixel that bit `k` (from the left) of a sprite row lands on: pixel
   * column `vx + k` lies in destination byte 0 or 1 of the row, at the
   * column within the byte that the row's part there puts that bit on.
   */
  lemma PixelOfRowBit(b: byte, vx: byte, k: nat, r: bv8, p: int, c: int)
    requires k < 8 && vx as int + k < ScreenWidth
    requires r == vx % 8 && p == (if r as int + k >= 8 then 1 else 0) && c == (vx as int + k) % 8
    ensures Overlap(RowPart(b, r, p), PixelMask[c]) == Overlap(b, PixelMask[k])
  {
    ColumnSplit(vx, k);
    if r as int + k >= 8 {
      RightPartBit(b, r, k, c);
    } else {
      LeftPartBit(b, r, k, c);
    }
  }

  /** Column `k` of the sprite byte lands on column `r + k` of the left destination byte. */
  lemma LeftPartBit(b: byte, r: bv8, k: nat, c: int)
    requires r < 8 && k < 8 && r as int + k < 8 && c == r as int + k
    ensures Overlap(b >> r, PixelMask[c]) == Overlap(b, PixelMask[k])
  {
    PixelMaskBit(b, k);
    PixelMaskBit(b >> r, c);
    ShiftRightBit(b, r, k as bv8);
  }

  /** Column `k` of the sprite byte lands on column `r + k - 8` of the right destination byte. */
  lemma RightPartBit(b: byte, r: bv8, k: nat, c: int)
    requires r < 8 && k < 8 && r as int + k >= 8 && c == r as int + k - 8
    ensures Overlap(b << (8 - r), PixelMask[c]) == Overlap(b, PixelMask[k])
  {
    PixelMaskBit(b, k);
    PixelMaskBit(b << (8 - r), c);
    ShiftLeftBit(b, r, k as bv8);
  }

  /** XOR acts on each column of a frame-buffer byte separately. */
  lemma PixelOfXor(a: byte, part: byte, c: int)
    requires 0 <= c < 8
    ensures Overlap(Xor(a, part), PixelMask[c]) == (Overlap(a, PixelMask[c]) != Overlap(part, PixelMask[c]))
  {
    PixelMaskBit(Xor(a, part), c);
    PixelMaskBit(a, c);
    PixelMaskBit(part, c);
    XorBit(a, part, 7 - c as bv8);
  }

  /** A frame-buffer byte XORed with a part flips the pixel of column `c` exactly when the part has it set. */
  lemma XorAtMask(before: byte, after: byte, part: byte, c: int, flip: bool)
    requires 0 <= c < 8 && after == Xor(before, part) && Overlap(part, PixelMask[c]) == flip
    ensures Overlap(after, PixelMask[c]) == (Overlap(before, PixelMask[c]) != flip)
  {
    PixelOfXor(before, part, c);
  }

  /**
   * What a draw means on screen: in a memory that is `mem` with the sprite
   * XORed in, which is what Dxyn leaves when the sprite does not overlap
   * what it draws on (`DrawXor`), bit `k` (from the left) of row `i` flips
   * pixel (`Vx + k`, `Vy + i`), whenever that pixel is on screen.
   */
  lemma DrawFlipsPixel(mem: Memory, m1: Memory, iReg: word, vx: byte, vy: byte, n: Height, i: nat, k: nat)
    requires Xored(mem, m1, iReg, vx, vy, n)
    requires i < n && k < 8
    requires vx as int + k < ScreenWidth && vy as int + i < ScreenHeight
    ensures Pixel(m1, vx as int + k, vy as int + i)
      == (Pixel(mem, vx as int + k, vy as int + i) != Overlap(mem[SourceAddr(iReg, i)], PixelMask[k]))
  {
    var p := if (vx % 8) as int + k >= 8 then 1 else 0;
    FlipFromByte(mem, m1, mem[SourceAddr(iReg, i)], vx, vy, i, k, p);
  }

  /** The pixel statement for one destination byte `p` of row `i`, given that the row part was XORed into it. */
  lemma FlipFromByte(mem: Memory, m1: Memory, b: byte, vx: byte, vy: byte, i: nat, k: nat, p: int)
    requires k < 8 && vx as int + k < ScreenWidth && vy as int + i < ScreenHeight
    requires p == (if (vx % 8) as int + k >= 8 then 1 else 0)
    requires m1[DestAddr(vx, vy, i, p)] == Xor(mem[DestAddr(vx, vy, i, p)], RowPart(b, vx % 8, p))
    ensures Pixel(m1, vx as int + k, vy as int + i)
      == (Pixel(mem, vx as int + k, vy as int + i) != Overlap(b, PixelMask[k]))
  {
    var px, py := vx as int + k, vy as int + i;
    var c := px % 8;
    PixelInRow(vx, vy, i, k, p);
    PixelOfRowBit(b, vx, k, vx % 8, p, c);
    XorAtMask(mem[DestAddr(vx, vy, i, p)], m1[DestAddr(vx, vy, i, p)], RowPart(b, vx % 8, p), c, Overlap(b, PixelMask[k]));
  }

  /** Pixel (`vx + k`, `vy + i`) lives in destination byte `p` of row `i`. */
  lemma PixelInRow(vx: byte, vy: byte, i: nat, k: nat, p: int)
    requires k < 8 && vx as int + k < ScreenWidth && vy as int + i < ScreenHeight
    requires p == (if (vx % 8) as int + k >= 8 then 1 else 0)
    ensures PixelAddress(vx as int + k, vy as int + i) == DestAddr(vx, vy, i, p)
  {
    ColumnSplit(vx, k);
  }

  /** Column `vx + k` lies in the byte of `vx` or the next one, according to the bit offset. */
  lemma ColumnSplit(vx: byte, k: nat)
    requires k < 8 && vx as int + k < ScreenWidth
    ensures (vx as int + k) / 8 == (vx / 8) as int + (if (vx % 8) as int + k >= 8 then 1 else 0)
    ensures (vx as int + k) % 8 == (vx % 8) as int + k - (if (vx % 8) as int + k >= 8 then 8 else 0)
  {
  }
}
