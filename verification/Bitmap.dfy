/** The bitmaps of lib/secure_gateway.h: two 64-bit words that stand for a set of indices below 128.
    A word is given by its bits, least significant first. */
module Bitmaps {
  const WIDTH := 64
  const CAPACITY := 128  // two words: BITMAP_MAX_LEN / 64 + 1

  type Word = w: seq<bool> | |w| == 64 witness seq(64, _ => false)

  function Or(a: Word, b: Word): Word {
    seq(WIDTH, k requires 0 <= k < WIDTH => a[k] || b[k])
  }

  function And(a: Word, b: Word): Word {
    seq(WIDTH, k requires 0 <= k < WIDTH => a[k] && b[k])
  }

  function Xor(a: Word, b: Word): Word {
    seq(WIDTH, k requires 0 <= k < WIDTH => a[k] != b[k])
  }

  function Not(a: Word): Word {
    seq(WIDTH, k requires 0 <= k < WIDTH => !a[k])
  }

  /** `1ULL << n` */
  function OneShifted(n: nat): Word
    requires n < WIDTH
  {
    seq(WIDTH, k => k == n)
  }

  function Zero(): Word {
    seq(WIDTH, _ => false)
  }

  /** The value of `(int)` applied to a word: its low 32 bits. */
  function ToInt(a: Word): seq<bool> {
    a[..32]
  }

  predicate NonZero(bits: seq<bool>) {
    exists k :: 0 <= k < |bits| && bits[k]
  }

  type Words = d: seq<Word> | |d| == 2 witness [Zero(), Zero()]

  /** The set the words stand for. */
  function Members(d: Words): set<nat> {
    set i: nat | i < CAPACITY && d[i / WIDTH][i % WIDTH]
  }

  lemma OneBit(a: Word, n: nat)
    requires n < WIDTH
    ensures Or(a, OneShifted(n)) == a[n := true]
    ensures And(a, Not(OneShifted(n))) == a[n := false]
    ensures Xor(a, OneShifted(n)) == a[n := !a[n]]
  {
  }

  /** A masked word converted to int is non-zero exactly for a set bit below position 32: the upper
      half of each word is lost in the conversion. */
  lemma TestBit(a: Word, n: nat)
    requires n < WIDTH
    ensures NonZero(ToInt(And(a, OneShifted(n)))) <==> a[n] && n < 32
  {
    var bits := ToInt(And(a, OneShifted(n)));
    if a[n] && n < 32 {
      assert bits[n];
    }
  }

  /** Replacing a word that differs in one bit adds or removes one index. */
  lemma MembersUpdate(d: Words, index: nat, on: bool)
    requires index < CAPACITY
    ensures var w := index / WIDTH;
            Members(d[w := d[w][index % WIDTH := on]])
            == if on then Members(d) + {index} else Members(d) - {index}
  {
    var w := index / WIDTH;
    var d' := d[w := d[w][index % WIDTH := on]];
    forall i: nat | i < CAPACITY
      ensures d'[i / WIDTH][i % WIDTH] == if i == index then on else d[i / WIDTH][i % WIDTH]
    {
    }
  }

  /** What bitmap_test returns, as a truth value. */
  function TestValue(d: Words, index: nat): bool
    requires index < CAPACITY
  {
    NonZero(ToInt(And(d[index / WIDTH], OneShifted(index % WIDTH))))
  }

  /** bitmap_test agrees with membership on every bitmap exactly for indices below 32 in their word. */
  lemma TestIsMembershipIff(index: nat)
    requires index < CAPACITY
    ensures index % WIDTH < 32 <==> (forall d: Words :: TestValue(d, index) <==> index in Members(d))
  {
    forall d: Words ensures TestValue(d, index) <==> index in Members(d) && index % WIDTH < 32 {
      TestBit(d[index / WIDTH], index % WIDTH);
    }
    if index % WIDTH >= 32 {
      var all: Word := seq(WIDTH, _ => true);
      var d: Words := [all, all];
      assert index in Members(d) && !TestValue(d, index);
    }
  }

  class Bitmap {
    var data: Words

    ghost function Set(): set<nat>
      reads this
    {
      Members(data)
    }

    constructor ()
      ensures Set() == {}
    {
      data := [Zero(), Zero()];
    }

    method Clear()
      modifies this
      ensures Set() == {}
    {
      data := [Zero(), Zero()];
    }

    method Insert(index: nat)
      requires index < CAPACITY
      modifies this
      ensures Set() == old(Set()) + {index}
    {
      var w := index / WIDTH;
      OneBit(data[w], index % WIDTH);
      MembersUpdate(data, index, true);
      data := data[w := Or(data[w], OneShifted(index % WIDTH))];
    }

    method Remove(index: nat)
      requires index < CAPACITY
      modifies this
      ensures Set() == old(Set()) - {index}
    {
      var w := index / WIDTH;
      OneBit(data[w], index % WIDTH);
      MembersUpdate(data, index, false);
      data := data[w := And(data[w], Not(OneShifted(index % WIDTH)))];
    }

    method Toggle(index: nat)
      requires index < CAPACITY
      modifies this
      ensures Set() == if index in old(Set()) then old(Set()) - {index} else old(Set()) + {index}
    {
      var w := index / WIDTH;
      OneBit(data[w], index % WIDTH);
      MembersUpdate(data, index, !data[w][index % WIDTH]);
      data := data[w := Xor(data[w], OneShifted(index % WIDTH))];
    }

    /** The C result is used as a truth value only, and that is what is returned. */
    method Test(index: nat) returns (r: bool)
      requires index < CAPACITY
      ensures r <==> index in Set() && index % WIDTH < 32
    {
      TestBit(data[index / WIDTH], index % WIDTH);
      r := TestValue(data, index);
    }

    /** memcpy of another bitmap's words. */
    method Copy(words: Words)
      modifies this
      ensures data == words
    {
      data := words;
    }
  }
}
