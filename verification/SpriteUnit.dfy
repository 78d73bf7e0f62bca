/** Sprite evaluation as the PPU does it: fields and secondary OAM that change from dot to dot. */
module SpriteUnit {
  import opened Bits
  import opened SpriteEval

  class SpriteScanner {
    const oam: array<Byte>
    const soam: array<Byte>
    var yp: int
    var spriteHeight: nat
    var reg2003: nat
    var ppuOn: bool
    var ppuWasOnSpr: bool

    var spriteEvalCycle: nat
    var isEvenCycle: bool
    var soamIndex: nat
    var oamIndex: nat
    var sprTrueCount: nat
    var spriteEvalWrite: bool
    var readValue: Byte
    var spriteZeroInRange: bool
    var objOverflow: bool

    ghost function View(): Scan
      reads this, soam
    {
      Scan(spriteEvalCycle, isEvenCycle, soamIndex, oamIndex, sprTrueCount, spriteEvalWrite, readValue,
           spriteZeroInRange, objOverflow, soam[..], AddrView())
    }

    ghost function AddrView(): Addr
      reads `reg2003, `ppuOn, `ppuWasOnSpr
    {
      Addr(reg2003, ppuOn, ppuWasOnSpr)
    }

    ghost function LineView(): Line
      reads this, oam
    {
      Line(oam[..], yp, spriteHeight)
    }

    ghost predicate Valid()
      reads this, oam, soam
    {
      oam != soam && LineOk(LineView()) && soam.Length == 256 && reg2003 < 256
    }

    constructor (yp: int, tall: bool)
      requires 0 <= yp < 240
      ensures Valid() && fresh(oam) && fresh(soam)
    {
      oam := new Byte[256](i => 0);
      soam := new Byte[256](i => 0);
      this.yp, spriteHeight, reg2003 := yp, if tall then 16 else 8, 0;
      spriteEvalCycle, isEvenCycle, soamIndex, oamIndex, sprTrueCount := 0, true, 0, 0, 0;
      spriteEvalWrite, readValue, spriteZeroInRange, objOverflow := true, 0, false, false;
      ppuOn, ppuWasOnSpr := false, false;
    }

    predicate InLine(y: Byte)
      reads this
    {
      yp >= y as int && yp < y as int + spriteHeight
    }

    /** A byte is used while there is room in secondary OAM. */
    method Copy()
      requires Valid() && soamIndex < 8 && sprTrueCount <= 3
      modifies this`soamIndex, this`oamIndex, this`sprTrueCount, this`spriteZeroInRange, soam
      ensures View() == CopyDot(LineView(), old(View()))
    {
      hide Aligned;
      if sprTrueCount == 0 {
        soam[soamIndex * 4] := readValue;
      }
      if InLine(readValue) && sprTrueCount == 0 {
        if oamIndex == reg2003 {
          spriteZeroInRange := true;
        }
        oamIndex := oamIndex + 1;
        sprTrueCount := sprTrueCount + 1;
      } else if sprTrueCount > 0 {
        CopyMore();
      } else {
        oamIndex := oamIndex + 4;
        oamIndex := Aligned(oamIndex);
      }
    }

    /** The second, third or fourth byte of a sprite. */
    method CopyMore()
      requires Valid() && soamIndex < 8 && 1 <= sprTrueCount <= 3
      modifies this`soamIndex, this`oamIndex, this`sprTrueCount, soam
      ensures var s := old(View());
        var t := s.(soam := s.soam[4 * s.index + s.count := s.value], at := s.at + 1);
        View() == if s.count < 3 then t.(count := s.count + 1)
                  else t.(index := s.index + 1, count := 0,
                          at := if Hits(LineView(), s.value) then s.at + 1 else Aligned(s.at + 1))
    {
      hide Aligned;
      soam[soamIndex * 4 + sprTrueCount] := readValue;
      oamIndex := oamIndex + 1;
      sprTrueCount := sprTrueCount + 1;
      if sprTrueCount == 4 {
        soamIndex := soamIndex + 1;
        if !InLine(readValue) {
          oamIndex := Aligned(oamIndex);
        }
        sprTrueCount := 0;
      }
    }

    /** A byte is used once secondary OAM is full. */
    method Overflow()
      requires Valid() && soamIndex <= 8 && sprTrueCount <= 3
      modifies this`oamIndex, this`sprTrueCount, this`objOverflow, this`readValue
      ensures View() == FullDot(LineView(), old(View()))
    {
      hide Aligned;
      if InLine(readValue) && ppuOn {
        objOverflow := true;
      }
      if InLine(readValue) && sprTrueCount == 0 {
        sprTrueCount := sprTrueCount + 1;
        oamIndex := oamIndex + 1;
      } else if sprTrueCount > 0 {
        OverflowMore();
      } else {
        oamIndex := oamIndex + 1;
        if oamIndex % 4 != 0 {
          oamIndex := oamIndex + 4;
        }
      }
      readValue := soam[soamIndex * 4 % 32];
    }

    /** The second, third or fourth byte behind one that is in range. */
    method OverflowMore()
      requires Valid() && 1 <= sprTrueCount <= 3
      modifies this`oamIndex, this`sprTrueCount
      ensures sprTrueCount == (old(sprTrueCount) + 1) % 4
      ensures oamIndex == if old(sprTrueCount) < 3 || Hits(LineView(), readValue) then old(oamIndex) + 1
                          else Aligned(old(oamIndex) + 1)
    {
      hide Aligned;
      oamIndex := oamIndex + 1;
      sprTrueCount := sprTrueCount + 1;
      if sprTrueCount == 4 {
        if !InLine(readValue) {
          oamIndex := Aligned(oamIndex);
        }
        sprTrueCount := 0;
      }
    }

    method Search()
      requires Valid() && soamIndex <= 8 && sprTrueCount <= 3
      modifies this`soamIndex, this`oamIndex, this`sprTrueCount, this`spriteZeroInRange, this`objOverflow,
        this`readValue, this`spriteEvalWrite, soam
      ensures View() == ScanDot(LineView(), old(View()))
    {
      hide CopyDot, FullDot;
      if oamIndex >= 256 {
        oamIndex := 0;
        spriteEvalWrite := false;
      }
      if isEvenCycle {
        readValue := oam[oamIndex];
      } else if spriteEvalWrite {
        if soamIndex < 8 {
          Copy();
        } else {
          Overflow();
        }
      } else {
        readValue := soam[soamIndex * 4 % 32];
        oamIndex := oamIndex + 4;
      }
    }

    /** Secondary OAM is cleared in the odd ones of the first 64 dots. */
    method Clear()
      requires Valid() && soamIndex < 32
      modifies this`soamIndex, soam
      ensures View() == ClearDot(old(View()))
    {
      if !isEvenCycle {
        soam[soamIndex] := 0xFF;
        soamIndex := soamIndex + 1;
      }
    }

    /** One dot; `on` is the level of the rendering enable that it leaves. */
    method Tick(on: bool)
      requires Valid() && Ready(View())
      modifies this`soamIndex, this`oamIndex, this`sprTrueCount, this`spriteZeroInRange, this`objOverflow,
        this`readValue, this`spriteEvalWrite, this`spriteEvalCycle, this`isEvenCycle, this`reg2003, this`ppuOn,
        this`ppuWasOnSpr, soam
      ensures Valid() && View() == Dot(LineView(), old(View()), on) && Ready(View())
    {
      hide ScanDot, Hits, ClearDot, Stepped, AddrView;
      DotReady(LineView(), View(), on);
      if spriteEvalCycle < 64 {
        Clear();
      } else {
        if spriteEvalCycle == 64 {
          StartScan();
        }
        Search();
      }
      NextCycle(on);
    }

    method StartScan()
      modifies this`soamIndex, this`oamIndex
      ensures View() == old(View()).(index := 0, at := old(View()).addr.start)
    {
      soamIndex := 0;
      oamIndex := reg2003;
    }

    method NextCycle(on: bool)
      requires reg2003 < 256
      modifies this`spriteEvalCycle, this`isEvenCycle, this`reg2003, this`ppuOn, this`ppuWasOnSpr
      ensures View() == Ended(old(View()), on) && reg2003 < 256
    {
      hide AddrView, Stepped;
      spriteEvalCycle := spriteEvalCycle + 1;
      isEvenCycle := !isEvenCycle;
      Levels(on);
    }

    /** The enable may have changed; when it falls, OAMADDR goes up. */
    method Levels(on: bool)
      requires spriteEvalCycle > 0 && reg2003 < 256
      modifies this`reg2003, this`ppuOn, this`ppuWasOnSpr
      ensures AddrView() == Stepped(old(AddrView()), spriteEvalCycle - 1, on) && reg2003 < 256
    {
      ppuOn := on;
      if spriteEvalCycle > 63 {
        if ppuWasOnSpr && !ppuOn {
          reg2003 := (reg2003 + 1) % 256;
        }
      }
      ppuWasOnSpr := ppuOn;
    }

    method Begin()
      requires Valid()
      modifies this`soamIndex, this`oamIndex, this`sprTrueCount, this`spriteZeroInRange, this`spriteEvalWrite,
        this`spriteEvalCycle, this`isEvenCycle
      ensures View() == Begun(old(View())) && Ready(View())
    {
      spriteEvalCycle, isEvenCycle, soamIndex, oamIndex, sprTrueCount := 0, true, 0, 0, 0;
      spriteEvalWrite, spriteZeroInRange := true, false;
    }

    /** The 256 dots of a line, with the level of the rendering enable that each leaves. */
    method EvaluateLine(on: seq<bool>)
      requires Valid() && |on| == 256
      modifies this`soamIndex, this`oamIndex, this`sprTrueCount, this`spriteZeroInRange, this`objOverflow,
        this`readValue, this`spriteEvalWrite, this`spriteEvalCycle, this`isEvenCycle, this`reg2003, this`ppuOn,
        this`ppuWasOnSpr, soam
      ensures Valid() && LineView() == old(LineView()) && reg2003 == OamAddr(old(reg2003), on, 256)
      ensures var l := LineView();
        var start := OamAddr(old(reg2003), on, 64);
        var picks := Picks(l, start / 4, start % 4, 65);
        && (forall i: nat | i < Min(8, |picks|) :: SlotHolds(l, soam[..], i, picks[i].at))
        && (forall j: nat | |picks| <= j < 8 :: !Hits(l, soam[4 * j]))
        && (spriteZeroInRange <==> exists i: nat ::
              i < Min(8, |picks|) && picks[i].at == OamAddr(old(reg2003), on, picks[i].dot))
        && (objOverflow
            <==> (old(objOverflow)
                  || (|picks| >= 8 && picks[7].at <= 252
                      && exists i: nat ::
                           var looks := LooksBehind(l, picks[7]);
                           i < |looks| && looks[i].dot >= 1 && Hits(l, l.oam[looks[i].at]) && on[looks[i].dot - 1])))
        && ((forall i: nat | i < 256 :: on[i]) ==>
              objOverflow == (old(objOverflow) || (|picks| >= 8 && DiagonalBehind(l, picks[7]))))
    {
      hide Dot, Dots, Hits, SlotHolds, Picks, Ready, DiagonalBehind, OamAddr, LooksBehind;
      ghost var l, start := LineView(), View();
      Begin();
      NoDots(l, View(), on);
      for d := 0 to 256
        invariant Valid() && LineView() == l && Ready(View()) && Ready(Begun(start))
        invariant View() == Dots(l, Begun(start), on[..d])
      {
        Tick(on[d]);
        NextDot(l, Begun(start), on, d);
      }
      assert on[..256] == on;
      EvaluationIsFilter(l, start, on);
      OverflowIs(l, start, on);
      AddrAtEnd(l, start, on);
      if forall i: nat | i < 256 :: on[i] { OverflowIsDiagonal(l, start, on); }
    }
  }

  lemma NoDots(l: Line, s: Scan, on: seq<bool>)
    requires LineOk(l) && Ready(s)
    ensures Dots(l, s, on[..0]) == s
  {
    hide Dot, Ready;
    assert on[..0] == [];
  }

  lemma NextDot(l: Line, s: Scan, on: seq<bool>, d: nat)
    requires LineOk(l) && Ready(s) && d < |on|
    ensures Dots(l, s, on[..d + 1]) == Dot(l, Dots(l, s, on[..d]), on[d])
  {
    hide Dot, Ready;
    assert on[..d + 1] == on[..d] + [on[d]];
    DotsJoin(l, s, on[..d], [on[d]]);
  }
}
