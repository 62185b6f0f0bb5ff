/** Access masks and their known names (src/event/mod.rs), for any name table. */
module Masks {
  import opened Events
  import Bits

  /** The word with only bit `i` set. */
  function SingleBit(i: nat): nat {
    if i == 0 then 1 else 2 * SingleBit(i - 1)
  }

  lemma {:induction false} SingleBitBits(i: nat, j: nat)
    ensures Bits.Bit(SingleBit(i), j) <==> i == j
    decreases j
  {
    if i > 0 && j > 0 {
      SingleBitBits(i - 1, j - 1);
    } else if j > 0 {
      assert SingleBit(i) / 2 == 0;
      Bits.BitOfZero(j - 1);
    }
  }

  datatype NamedBit = NamedBit(index: nat, name: string)

  type Table = seq<NamedBit>

  /** The fold that both mask accessors compute. */
  function TableMask(table: Table): nat {
    if table == [] then 0 else Bits.Or(TableMask(table[..|table| - 1]), SingleBit(table[|table| - 1].index))
  }

  function KnownBits(table: Table, mask: AccessMask): nat {
    Bits.And(mask, TableMask(table))
  }

  function UnknownBits(table: Table, mask: AccessMask): nat {
    Bits.AndNot(mask, TableMask(table))
  }

  /** The named bits set in the mask, in table order. */
  function KnownNames(table: Table, mask: AccessMask): seq<NamedBit> {
    if table == [] then []
    else
      KnownNames(table[..|table| - 1], mask) +
      if Bits.And(mask, SingleBit(table[|table| - 1].index)) != 0 then [table[|table| - 1]] else []
  }

  ghost predicate Listed(table: Table, i: nat) {
    exists k :: 0 <= k < |table| && table[k].index == i
  }

  lemma {:induction false} TableMaskBits(table: Table, i: nat)
    ensures Bits.Bit(TableMask(table), i) <==> Listed(table, i)
  {
    if table == [] {
      Bits.BitOfZero(i);
    } else {
      var n := |table| - 1;
      TableMaskBits(table[..n], i);
      Bits.BitOr(TableMask(table[..n]), SingleBit(table[n].index), i);
      SingleBitBits(table[n].index, i);
      assert forall k :: 0 <= k < n ==> table[k] == table[..n][k];
    }
  }

  lemma AndSingleBit(mask: AccessMask, i: nat)
    ensures Bits.And(mask, SingleBit(i)) != 0 <==> Bits.Bit(mask, i)
  {
    var w := Bits.And(mask, SingleBit(i));
    Bits.BitAnd(mask, SingleBit(i), i);
    SingleBitBits(i, i);
    if w != 0 {
      var j := Bits.SomeBit(w);
      Bits.BitAnd(mask, SingleBit(i), j);
      SingleBitBits(i, j);
    } else {
      Bits.BitOfZero(i);
    }
  }

  lemma {:induction false} KnownNamesMembers(table: Table, mask: AccessMask, b: NamedBit)
    ensures b in KnownNames(table, mask) <==> b in table && Bits.Bit(mask, b.index)
  {
    if table != [] {
      var n := |table| - 1;
      KnownNamesMembers(table[..n], mask, b);
      AndSingleBit(mask, table[n].index);
      assert table == table[..n] + [table[n]];
    }
  }

  /** Known and unknown bits partition the mask, and the known names account
      for exactly the known bits. */
  lemma MaskPartition(table: Table, mask: AccessMask)
    ensures Bits.Or(KnownBits(table, mask), UnknownBits(table, mask)) == mask
    ensures Bits.And(KnownBits(table, mask), UnknownBits(table, mask)) == 0
    ensures TableMask(KnownNames(table, mask)) == KnownBits(table, mask)
  {
    var known, unknown := KnownBits(table, mask), UnknownBits(table, mask);
    forall i: nat
      ensures Bits.Bit(Bits.Or(known, unknown), i) == Bits.Bit(mask, i)
      ensures Bits.Bit(Bits.And(known, unknown), i) == Bits.Bit(0, i)
      ensures Bits.Bit(TableMask(KnownNames(table, mask)), i) == Bits.Bit(known, i)
    {
      Bits.BitOr(known, unknown, i);
      Bits.BitAnd(known, unknown, i);
      Bits.BitAnd(mask, TableMask(table), i);
      Bits.BitAndNot(mask, TableMask(table), i);
      Bits.BitOfZero(i);
      TableMaskBits(table, i);
      TableMaskBits(KnownNames(table, mask), i);
      ListedNames(table, mask, i);
    }
    Bits.Extensional(Bits.Or(known, unknown), mask);
    Bits.Extensional(Bits.And(known, unknown), 0);
    Bits.Extensional(TableMask(KnownNames(table, mask)), known);
  }

  lemma ListedNames(table: Table, mask: AccessMask, i: nat)
    ensures Listed(KnownNames(table, mask), i) <==> Listed(table, i) && Bits.Bit(mask, i)
  {
    var names := KnownNames(table, mask);
    if Listed(names, i) {
      var k :| 0 <= k < |names| && names[k].index == i;
      KnownNamesMembers(table, mask, names[k]);
      var m :| 0 <= m < |table| && table[m] == names[k];
    }
    if Listed(table, i) && Bits.Bit(mask, i) {
      var k :| 0 <= k < |table| && table[k].index == i;
      KnownNamesMembers(table, mask, table[k]);
      var m :| 0 <= m < |names| && names[m] == table[k];
    }
  }
}
