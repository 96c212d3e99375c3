/** What the computed inode numbers are good for: on one device they are those of the files themselves, and
    with several devices the hash keeps apart what differs only in the inode or only in the device. */
module InodeNumbers {
  import opened Wrappers
  import opened NodeTree
  import opened InodeTable

  // ---- Exclusive or ----

  lemma XorBits(a: nat, b: nat)
    ensures Xor(a, b) / 2 == Xor(a / 2, b / 2) && Xor(a, b) % 2 == (a + b) % 2
  {}

  lemma {:induction false} XorCancels(a: nat, b: nat)
    ensures Xor(Xor(a, b), b) == a
    decreases a + b
  {
    if a + b > 0 {
      var x, y := Xor(a, b), Xor(Xor(a, b), b);
      XorBits(a, b);
      XorBits(x, b);
      XorCancels(a / 2, b / 2);
      assert y / 2 == a / 2 && x % 2 == (a + b) % 2 && y % 2 == (x + b) % 2;
      SameWord(a, b, x, y);
    }
  }

  lemma SameWord(a: nat, b: nat, x: nat, y: nat)
    requires y / 2 == a / 2 && x % 2 == (a + b) % 2 && y % 2 == (x + b) % 2
    ensures y == a
  {
    assert (x + b) % 2 == (x % 2 + b % 2) % 2 && (a + b) % 2 == (a % 2 + b % 2) % 2;
    assert y % 2 == a % 2;
  }

  lemma {:induction false} XorCommutes(a: nat, b: nat)
    ensures Xor(a, b) == Xor(b, a)
    decreases a + b
  {
    if a > 0 && b > 0 {
      XorCommutes(a / 2, b / 2);
    }
  }

  lemma DivTwice(x: nat)
    ensures x / 2 / 2 == x / 4 && x / 4 / 4 == x / 0x10 && x / 0x10 / 0x10 == x / 0x100
    ensures x / 0x100 / 0x100 == x / 0x1_0000 && x / 0x1_0000 / 0x1_0000 == x / 0x1_0000_0000
  {}

  lemma XorBits4(a: nat, b: nat)
    ensures Xor(a, b) / 0x10 == Xor(a / 0x10, b / 0x10)
  {
    hide Xor;
    DivTwice(a);
    DivTwice(b);
    DivTwice(Xor(a, b));
    XorBits2(a, b);
    XorBits2(a / 4, b / 4);
  }

  lemma XorBits2(a: nat, b: nat)
    ensures Xor(a, b) / 4 == Xor(a / 4, b / 4)
  {
    hide Xor;
    DivTwice(a);
    DivTwice(b);
    DivTwice(Xor(a, b));
    XorBits(a, b);
    XorBits(a / 2, b / 2);
  }

  lemma XorBits16(a: nat, b: nat)
    ensures Xor(a, b) / 0x1_0000 == Xor(a / 0x1_0000, b / 0x1_0000)
  {
    hide Xor;
    DivTwice(a);
    DivTwice(b);
    DivTwice(Xor(a, b));
    XorBits8(a, b);
    XorBits8(a / 0x100, b / 0x100);
  }

  lemma XorBits8(a: nat, b: nat)
    ensures Xor(a, b) / 0x100 == Xor(a / 0x100, b / 0x100)
  {
    hide Xor;
    DivTwice(a);
    DivTwice(b);
    DivTwice(Xor(a, b));
    XorBits4(a, b);
    XorBits4(a / 0x10, b / 0x10);
  }

  lemma XorBits32(a: nat, b: nat)
    ensures Xor(a, b) / 0x1_0000_0000 == Xor(a / 0x1_0000_0000, b / 0x1_0000_0000)
  {
    hide Xor;
    DivTwice(a);
    DivTwice(b);
    DivTwice(Xor(a, b));
    XorBits16(a, b);
    XorBits16(a / 0x1_0000, b / 0x1_0000);
  }

  /** The exclusive or of two words is a word. */
  lemma XorIsWord(a: nat, b: nat)
    requires a < U64 && b < U64
    ensures Xor(a, b) < U64
  {
    XorBits32(a, b);
    XorBits32(a / 0x1_0000_0000, b / 0x1_0000_0000);
    assert a / 0x1_0000_0000 / 0x1_0000_0000 == 0 && b / 0x1_0000_0000 / 0x1_0000_0000 == 0;
  }

  /** Mixing the upper half of a word into the lower one undoes itself. */
  lemma MixUndoesItself(x: nat)
    requires x < U64
    ensures var y := Xor(x, x / 0x1_0000_0000); y < U64 && Xor(y, y / 0x1_0000_0000) == x
  {
    var y := Xor(x, x / 0x1_0000_0000);
    XorIsWord(x, x / 0x1_0000_0000);
    XorBits32(x, x / 0x1_0000_0000);
    assert x / 0x1_0000_0000 / 0x1_0000_0000 == 0;
    XorCommutes(x / 0x1_0000_0000, 0);
    XorCancels(x, x / 0x1_0000_0000);
  }

  // ---- Wrapping multiplication by an odd constant ----

  const SPREAD_INVERSE := 0xf1de_83e1_9937_733d
  const SCRAMBLE_INVERSE := 0x2040_003d_7809_70bd

  lemma MultipleGoes(n: nat, m: nat)
    ensures (U64 * n + m) % U64 == m % U64
  {}

  lemma Distribute(n: nat, m: nat, k: nat)
    ensures (U64 * n + m) * k == U64 * (n * k) + m * k
    ensures k * (U64 * n + m) == U64 * (k * n) + k * m
  {}

  lemma Regroup(a: nat, b: nat, c: nat)
    ensures (a * b) * c == a * (b * c)
  {}

  /** The remainder may be taken before multiplying. */
  lemma WrapsOnce(x: nat, k: nat)
    ensures WrappingMul(x % U64, k) == (x * k) % U64
  {
    var q, r := x / U64, x % U64;
    assert x == U64 * q + r;
    Distribute(q, r, k);
    MultipleGoes(q * k, r * k);
  }

  lemma MulUndone(a: nat, c: nat, inverse: nat)
    requires a < U64 && (c * inverse) % U64 == 1
    ensures WrappingMul(WrappingMul(a, c), inverse) == a
  {
    var p := c * inverse / U64;
    WrapsOnce(a * c, inverse);
    Regroup(a, c, inverse);
    assert c * inverse == U64 * p + 1;
    Distribute(p, 1, a);
    MultipleGoes(a * p, a);
  }

  // ---- The hash ----

  /** Two inodes of one device, and the same inode number on two devices, never have the same hash. */
  lemma HashSeparates(ino1: nat, dev1: nat, ino2: nat, dev2: nat)
    requires ino1 < U64 && ino2 < U64 && dev1 < U64 && dev2 < U64
    requires HashIno(ino1, dev1) == HashIno(ino2, dev2)
    ensures ino1 == ino2 <==> dev1 == dev2
  {
    hide Xor;
    hide WrappingMul;
    var d1, d2 := WrappingMul(dev1, SPREAD), WrappingMul(dev2, SPREAD);
    WrappedIsWord(dev1, SPREAD);
    WrappedIsWord(dev2, SPREAD);
    var x1, x2 := Xor(ino1, d1), Xor(ino2, d2);
    XorIsWord(ino1, d1);
    XorIsWord(ino2, d2);
    HashUndone(x1);
    HashUndone(x2);
    assert x1 == x2;
    XorCancels(ino1, d1);
    XorCancels(ino2, d2);
    XorCommutes(ino1, d1);
    XorCommutes(ino2, d2);
    XorCancels(d1, ino1);
    XorCancels(d2, ino2);
    MulUndone(dev1, SPREAD, SPREAD_INVERSE);
    MulUndone(dev2, SPREAD, SPREAD_INVERSE);
  }

  lemma WrappedIsWord(a: nat, b: nat)
    ensures WrappingMul(a, b) < U64
  {}

  function Undone(y: nat): nat {
    WrappingMul(Xor(y, y / 0x1_0000_0000), SCRAMBLE_INVERSE)
  }

  /** What the hash does to the mixture of inode and device can be undone. */
  lemma HashUndone(x: nat)
    requires x < U64
    ensures var m := WrappingMul(x, SCRAMBLE); Undone(Xor(m, m / 0x1_0000_0000) % U64) == x
  {
    hide Xor;
    hide WrappingMul;
    var m := WrappingMul(x, SCRAMBLE);
    WrappedIsWord(x, SCRAMBLE);
    MixUndoesItself(m);
    MulUndone(x, SCRAMBLE, SCRAMBLE_INVERSE);
  }

  // ---- The numbers ----

  /** With all layers on one device a file has its own inode number, unless that is reserved or taken. */
  lemma OneDeviceKeepsNumbers(t: Inodes, live: set<NodeId>, same: set<NodeId>, id: NodeId, key: InodeKey, mode: nat, u: Inodes, f: nat)
    requires TableOk(t) && key.ino < U64 && key.dev < U64 && !HasLiveNode(t, key, live)
    requires Registered(t, live, same, id, key, mode, u, f)
    ensures t.sameDevice && key.ino > 1 && key.ino !in t.fuseMap ==> f == key.ino
    ensures t.sameDevice && key.ino > 1 && f != key.ino ==> key.ino in t.fuseMap
  {}

  /** With several devices, two files that differ only in the inode or only in the device are given the same
      number only where one of the hashes is reserved. */
  lemma ComputedNumbersDiffer(ino1: nat, dev1: nat, ino2: nat, dev2: nat)
    requires ino1 < U64 && ino2 < U64 && dev1 < U64 && dev2 < U64 && (ino1 == ino2 <==> dev1 != dev2)
    ensures ComputeFuseIno(ino1, dev1, false) == ComputeFuseIno(ino2, dev2, false) ==> HashIno(ino1, dev1) <= 1 || HashIno(ino2, dev2) <= 1
  {
    hide HashIno;
    if HashIno(ino1, dev1) == HashIno(ino2, dev2) {
      HashSeparates(ino1, dev1, ino2, dev2);
    }
  }
}
