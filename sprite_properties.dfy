/**
 * What DXYN does to the framebuffer: exactly the set bits of the sprite are
 * toggled, each at its wrapped coordinates, VF reports whether one of them
 * was switched off, and drawing the same sprite again undoes the draw.
 */
module SpriteProperties {
  import opened Bytes
  import opened FrameBuffers
  import opened Chip8

  /** `row & (1 << (7 - dx)) != 0` tests bit 7 - dx of the row. */
  lemma SpriteBitIsBit(row: byte, dx: nat)
    requires dx < 8
    ensures SpriteBit(row, dx) <==> Bit(row, 7 - dx)
  {
    SingleBitMask(row, 7 - dx, 8);
  }

  lemma WrapColumn(xc: byte, dx: nat)
    ensures (xc + dx) % 0x100 % Width == (xc + dx) % Width
  {
    var a := xc + dx;
    DivUnique(a, Width, 4 * (a / 0x100) + a % 0x100 / Width, a % 0x100 % Width);
  }

  lemma WrapRow(yc: byte, dy: nat)
    ensures (yc + dy) % 0x100 % Height == (yc + dy) % Height
  {
    var a := yc + dy;
    DivUnique(a, Height, 8 * (a / 0x100) + a % 0x100 / Height, a % 0x100 % Height);
  }

  /** The cell a sprite pixel lands on: column (xc + dx) mod 64 of row (yc + dy) mod 32. */
  lemma SpriteCellCoordinates(xc: byte, yc: byte, dx: nat, dy: nat)
    requires dx < 8 && dy < 16
    ensures SpriteCell(xc, yc, dx, dy) < Size
    ensures SpriteCell(xc, yc, dx, dy) % Width == (xc + dx) % Width
    ensures SpriteCell(xc, yc, dx, dy) / Width == (yc + dy) % Height
  {
    WrapColumn(xc, dx);
    WrapRow(yc, dy);
  }

  /** For a residue a and an offset d below m: d is (a - b) mod m exactly when b + d is a modulo m. */
  lemma OffsetInverse(a: int, b: int, d: int, m: int)
    requires m > 0 && 0 <= a < m && 0 <= d < m
    ensures (a - b) % m == d <==> (b + d) % m == a
  {
    if (b + d) % m == a {
      var q := (b + d) / m;
      DivUnique(a - b, m, -q, d);
    }
    if (a - b) % m == d {
      var q := (a - b) / m;
      DivUnique(b + d, m, -q, a);
    }
  }

  /** Two numbers are equal exactly when their quotients and remainders by w are. */
  lemma QuotientRemainder(c: nat, k: nat, w: nat)
    requires w > 0
    ensures c == k <==> c / w == k / w && c % w == k % w
  {
    assert c == w * (c / w) + c % w;
    assert k == w * (k / w) + k % w;
  }

  /** Cell k receives sprite pixel (dx, dy) exactly when dx and dy are the column and row that ColumnOf and RowOf read back. */
  lemma SpriteCellInverse(xc: byte, yc: byte, dx: nat, dy: nat, k: nat)
    requires dx < 8 && dy < 16 && k < Size
    ensures SpriteCell(xc, yc, dx, dy) == k <==> ColumnOf(k, xc) == dx && RowOf(k, yc) == dy
  {
    var c := SpriteCell(xc, yc, dx, dy);
    SpriteCellCoordinates(xc, yc, dx, dy);
    QuotientRemainder(c, k, Width);
    assert k / Width < Height;
    OffsetInverse(k % Width, xc, dx, Width);
    OffsetInverse(k / Width, yc, dy, Height);
  }

  /** The cells DXYN toggles are exactly the cells of the sprite's set bits; every other cell is left alone. */
  lemma DrawTogglesSprite(screen: seq<bool>, memory: seq<byte>, i: nat, xc: byte, yc: byte, n: nibble, k: nat)
    requires |screen| == Size && SpriteInMemory(memory, i, n) && k < Size
    ensures Drawn(screen, memory, i, xc, yc, n)[k] != screen[k] <==>
      exists dx, dy :: 0 <= dx < 8 && 0 <= dy < n && SpriteBit(memory[i + dy], dx) && SpriteCell(xc, yc, dx, dy) == k
  {
    var dx, dy := ColumnOf(k, xc), RowOf(k, yc);
    if Covers(memory, i, xc, yc, n, k) {
      SpriteCellInverse(xc, yc, dx, dy, k);
    }
    forall dx', dy' | 0 <= dx' < 8 && 0 <= dy' < n && SpriteBit(memory[i + dy'], dx') && SpriteCell(xc, yc, dx', dy') == k
      ensures Covers(memory, i, xc, yc, n, k)
    {
      SpriteCellInverse(xc, yc, dx', dy', k);
    }
  }

  /**
   * Seen through the framebuffer's coordinates: the pixel at ((xc + dx) mod
   * 256, (yc + dy) mod 256) is flipped exactly when bit 7 - dx of sprite row dy is set.
   */
  lemma DrawFlipsSpritePixel(screen: seq<bool>, memory: seq<byte>, i: nat, xc: byte, yc: byte, n: nibble, dx: nat, dy: nat)
    requires |screen| == Size && SpriteInMemory(memory, i, n) && dx < 8 && dy < n
    ensures var px, py := (xc + dx) % 0x100, (yc + dy) % 0x100;
      PixelAt(Drawn(screen, memory, i, xc, yc, n), px, py) == (PixelAt(screen, px, py) != Bit(memory[i + dy], 7 - dx))
  {
    var c := SpriteCell(xc, yc, dx, dy);
    SpriteCellCoordinates(xc, yc, dx, dy);
    SpriteCellInverse(xc, yc, dx, dy, c);
    SpriteBitIsBit(memory[i + dy], dx);
  }

  /**
   * VF after DXYN: some pixel was on and is switched off, equivalently some
   * set sprite bit lands on a pixel that was on.
   */
  lemma CollisionMeansSwitchedOff(screen: seq<bool>, memory: seq<byte>, i: nat, xc: byte, yc: byte, n: nibble)
    requires |screen| == Size && SpriteInMemory(memory, i, n)
    ensures var d := Drawn(screen, memory, i, xc, yc, n);
      Collides(screen, memory, i, xc, yc, n) <==> exists k :: 0 <= k < Size && d[k] != screen[k] && !d[k]
    ensures Collides(screen, memory, i, xc, yc, n) <==>
      exists dx, dy :: 0 <= dx < 8 && 0 <= dy < n && SpriteBit(memory[i + dy], dx) && screen[SpriteCell(xc, yc, dx, dy)]
  {
    var d := Drawn(screen, memory, i, xc, yc, n);
    if Collides(screen, memory, i, xc, yc, n) {
      var k :| 0 <= k < Size && Covers(memory, i, xc, yc, n, k) && screen[k];
      assert d[k] != screen[k] && !d[k];
      SpriteCellInverse(xc, yc, ColumnOf(k, xc), RowOf(k, yc), k);
    }
    forall dx, dy | 0 <= dx < 8 && 0 <= dy < n && SpriteBit(memory[i + dy], dx) && screen[SpriteCell(xc, yc, dx, dy)]
      ensures Collides(screen, memory, i, xc, yc, n)
    {
      var c := SpriteCell(xc, yc, dx, dy);
      SpriteCellCoordinates(xc, yc, dx, dy);
      SpriteCellInverse(xc, yc, dx, dy, c);
      assert Covers(memory, i, xc, yc, n, c);
    }
  }

  /** Drawing the same sprite at the same place twice restores the screen. */
  lemma DrawTwiceRestores(screen: seq<bool>, memory: seq<byte>, i: nat, xc: byte, yc: byte, n: nibble)
    requires |screen| == Size && SpriteInMemory(memory, i, n)
    ensures Drawn(Drawn(screen, memory, i, xc, yc, n), memory, i, xc, yc, n) == screen
  {
  }

  /**
   * DXYN changes the screen, sets VF to 0 or 1 and sets the draw flag, and
   * nothing else; VF is 1 exactly when a pixel was switched off.
   */
  lemma DrawSpriteEffect(m: Machine, x: nibble, y: nibble, n: nibble)
    requires WellFormed(m) && SpriteInMemory(m.memory, m.i, n)
    ensures var r := DrawSprite(m, x, y, n);
      && r == m.(screen := r.screen, v := m.v[0xF := r.v[0xF]], drawFlag := true)
      && (r.v[0xF] == 0 || r.v[0xF] == 1)
      && (r.v[0xF] == 1 <==> exists k :: 0 <= k < Size && r.screen[k] != m.screen[k] && !r.screen[k])
  {
    CollisionMeansSwitchedOff(m.screen, m.memory, m.i, m.v[x], m.v[y], n);
  }

  /** The same DXYN twice, with X and Y other than F, leaves the screen as it was. */
  lemma DrawSpriteTwice(m: Machine, x: nibble, y: nibble, n: nibble)
    requires WellFormed(m) && SpriteInMemory(m.memory, m.i, n) && x != 0xF && y != 0xF
    ensures DrawSprite(DrawSprite(m, x, y, n), x, y, n).screen == m.screen
  {
    DrawTwiceRestores(m.screen, m.memory, m.i, m.v[x], m.v[y], n);
  }
}
