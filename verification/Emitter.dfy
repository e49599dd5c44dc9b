/** The 64 KB code buffer, filled byte by byte and patched in place. */
module Emitter {
  import opened Words
  import opened Instructions
  import opened Machine
  import opened CodeGen

  const CAPACITY: nat := 65536

  /** After appending the code c the buffer holds b, provided it fits. */
  ghost predicate Appends(a: seq<byte>, b: seq<byte>, c: Code) {
    |a| <= |b| && (|a| + Size(c) <= CAPACITY ==> b == a + EncodeAll(c))
  }

  lemma AppendsNothing(a: seq<byte>)
    ensures Appends(a, a, [])
  {
    assert a + [] == a;
  }

  lemma AppendsMore(a: seq<byte>, b: seq<byte>, d: seq<byte>, c: Code, c': Code)
    requires Appends(a, b, c) && Appends(b, d, c')
    ensures Appends(a, d, c + c')
  {
    hide Size, EncodeAll;
    SizeConcat(c, c');
    EncodeConcat(c, c');
    if |a| + Size(c + c') <= CAPACITY {
      assert |b| == |a| + Size(c);
      assert a + EncodeAll(c) + EncodeAll(c') == a + (EncodeAll(c) + EncodeAll(c'));
    }
  }

  /** bs cut to the room that is left: bytes past the end are dropped. */
  function Room(a: seq<byte>, bs: seq<byte>): (r: seq<byte>)
    requires |a| <= CAPACITY
    ensures |r| <= |bs| && (|a| + |bs| <= CAPACITY ==> r == bs)
  {
    if |a| + |bs| <= CAPACITY then bs else bs[..CAPACITY - |a|]
  }

  lemma RoomTwice(a: seq<byte>, b: seq<byte>, c: seq<byte>)
    requires |a| <= CAPACITY
    ensures a + Room(a, b) + Room(a + Room(a, b), c) == a + Room(a, b + c)
  {
  }

  class CodeBuffer {
    const data: array<byte>
    var size: nat

    ghost predicate Valid()
      reads this
    {
      data.Length == CAPACITY && size <= CAPACITY
    }

    ghost function Bytes(): (bs: seq<byte>)
      requires Valid()
      reads this, data
      ensures |bs| == size
    {
      data[..size]
    }

    constructor ()
      ensures Valid() && Bytes() == [] && fresh(data) && data.Length == 65536
    {
      data := new byte[CAPACITY](_ => 0);
      size := 0;
    }

    method Reset()
      requires Valid()
      modifies this
      ensures Valid() && Bytes() == []
    {
      size := 0;
    }

    method EmitByte(b: byte)
      requires Valid()
      modifies this, data
      ensures Valid() && Bytes() == old(Bytes()) + Room(old(Bytes()), [b])
    {
      if size < CAPACITY {
        data[size] := b;
        size := size + 1;
      }
    }

    method EmitBytes(bs: seq<byte>)
      requires Valid()
      modifies this, data
      ensures Valid() && Bytes() == old(Bytes()) + Room(old(Bytes()), bs)
    {
      ghost var start := Bytes();
      assert Bytes() == start + Room(start, bs[..0]);
      for k := 0 to |bs|
        invariant Valid() && Bytes() == start + Room(start, bs[..k])
      {
        RoomTwice(start, bs[..k], [bs[k]]);
        assert bs[..k] + [bs[k]] == bs[..k + 1];
        EmitByte(bs[k]);
      }
      assert bs[..|bs|] == bs;
    }

    /** Four bytes of a 32-bit operand, least significant first. */
    method EmitI32(v: int)
      requires Valid()
      modifies this, data
      ensures Valid() && Bytes() == old(Bytes()) + Room(old(Bytes()), I32(v))
    {
      I32Bytes(v);
      EmitBytes([v % 0x100, v / 0x100 % 0x100, v / 0x1_0000 % 0x100, v / 0x100_0000 % 0x100]);
    }

    /** Eight bytes of a 64-bit operand. */
    method EmitI64(v: int)
      requires Valid()
      modifies this, data
      ensures Valid() && Bytes() == old(Bytes()) + Room(old(Bytes()), LittleEndian(v, 8))
    {
      hide LittleEndian;
      ghost var start, all := Bytes(), LittleEndian(v, 8);
      var rest := v;
      assert Bytes() == start + Room(start, all[..0]);
      for i := 0 to 8
        invariant Valid() && Bytes() == start + Room(start, all[..i])
        invariant LittleEndian(rest, 8 - i) == all[i..]
      {
        LittleEndianStep(rest, 8 - i);
        assert all[i] == all[i..][0] == rest % 0x100 && all[i + 1..] == all[i..][1..];
        RoomTwice(start, all[..i], [all[i]]);
        assert all[..i] + [all[i]] == all[..i + 1];
        EmitByte(rest % 0x100);
        rest := rest / 0x100;
      }
      assert all[..8] == all;
    }

    /** One instruction: its opcode bytes, then its 32-bit operand; only mov rax, imm has a 64-bit form. */
    method Emit(i: Instr)
      requires Valid()
      modifies this, data
      ensures Valid() && Bytes() == old(Bytes()) + Room(old(Bytes()), Encode(i))
      ensures Appends(old(Bytes()), Bytes(), [i])
    {
      hide LittleEndian, EncodeAll;
      ghost var start := Bytes();
      if i.MovRaxImm? && !IsI32(i.v) {
        EmitBytes([0x48, 0xB8]);
        EmitI64(i.v);
        RoomTwice(start, [0x48, 0xB8], LittleEndian(i.v, 8));
      } else {
        EncodeParts(i);
        EmitBytes(Opcode(i));
        match Operand(i)
        case NoImm => assert Opcode(i) + [] == Opcode(i);
        case Imm(n) =>
          EmitI32(n);
          RoomTwice(start, Opcode(i), I32(n));
      }
      AppendsOne(start, Bytes(), i);
    }

    /** Writes the distance from the end of the operand at pp to the end of the code into that operand. */
    method PatchJump(pp: nat)
      requires Valid()
      modifies data
      ensures Valid() && |Bytes()| == |old(Bytes())|
      ensures pp + 4 <= size ==> Bytes() == old(Bytes())[..pp] + I32(size - (pp + 4)) + old(Bytes())[pp + 4..]
    {
      WriteI32(pp, size - (pp + 4));
    }

    /** The four stores of a patch. Past the end of the code nothing is written. */
    method WriteI32(pp: nat, v: int)
      requires Valid()
      modifies data
      ensures Valid() && |Bytes()| == |old(Bytes())|
      ensures pp + 4 <= size ==> Bytes() == old(Bytes())[..pp] + I32(v) + old(Bytes())[pp + 4..]
    {
      if pp + 4 <= size {
        I32Bytes(v);
        data[pp] := v % 0x100;
        data[pp + 1] := v / 0x100 % 0x100;
        data[pp + 2] := v / 0x1_0000 % 0x100;
        data[pp + 3] := v / 0x100_0000 % 0x100;
        assert data[pp..pp + 4] == I32(v);
        assert Bytes() == data[..pp] + data[pp..pp + 4] + data[pp + 4..size];
      }
    }
  }

  lemma LittleEndianStep(v: int, n: nat)
    requires n > 0
    ensures LittleEndian(v, n)[0] == v % 0x100 && LittleEndian(v, n)[1..] == LittleEndian(v / 0x100, n - 1)
  {
  }

  lemma I32Bytes(v: int)
    ensures I32(v) == [v % 0x100, v / 0x100 % 0x100, v / 0x1_0000 % 0x100, v / 0x100_0000 % 0x100]
  {
    assert v / 0x100 / 0x100 == v / 0x1_0000 && v / 0x1_0000 / 0x100 == v / 0x100_0000;
    assert LittleEndian(v / 0x100_0000, 1) == [v / 0x100_0000 % 0x100];
    assert LittleEndian(v / 0x1_0000, 2) == [v / 0x1_0000 % 0x100] + LittleEndian(v / 0x100_0000, 1);
    assert LittleEndian(v / 0x100, 3) == [v / 0x100 % 0x100] + LittleEndian(v / 0x1_0000, 2);
  }

  lemma AppendsOne(a: seq<byte>, b: seq<byte>, i: Instr)
    requires |a| <= CAPACITY && b == a + Room(a, Encode(i))
    ensures Appends(a, b, [i])
  {
    hide Encode;
    assert [i][1..] == [];
    assert EncodeAll([i]) == Encode(i) + [];
  }
}
