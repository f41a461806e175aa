/**
 The cuckoo maplet: a packed slot table that refines a plain map from classes to
 values. A class is a fingerprint together with its pair of buckets; keys of one class
 share a slot. The hash functions are arbitrary.
 */
module MapletSpec {
  import opened Bits

  const SLOTS := 4
  const VALUES := 16
  const FINGERPRINTS := 0x1000_0000
  const MAX_KICKS := 500

  datatype Class = Class(fp: nat, home: nat)

  // decompose: first bucket and nonzero fingerprint of a 64-bit hash.
  function FirstBucket(h: nat, k: nat): nat { h % Pow2(k) }

  function Fingerprint(h: nat): nat
  {
    var raw := (h / 0x1_0000_0000) % FINGERPRINTS;
    if raw == 0 then 1 else raw
  }

  function Alt(h32: nat -> nat, k: nat, i: nat, fp: nat): (r: nat)
    ensures r < Pow2(k)
  {
    Xor(i, h32(fp)) % Pow2(k)
  }

  function ClassOf(h32: nat -> nat, k: nat, i: nat, fp: nat): Class
  {
    var j := Alt(h32, k, i, fp);
    Class(fp, if i < j then i else j)
  }

  function KeyClass(h64: string -> nat, h32: nat -> nat, k: nat, key: string): Class
  {
    var h := h64(key);
    ClassOf(h32, k, FirstBucket(h, k), Fingerprint(h))
  }

  function PackSlot(fp: nat, val: nat): nat { fp * VALUES + val % VALUES }

  function ClassAt(h32: nat -> nat, k: nat, j: nat, word: nat): Class { ClassOf(h32, k, j / SLOTS, word / VALUES) }

  /** The alternate bucket of the alternate bucket is the bucket itself. */
  lemma AltInvolution(h32: nat -> nat, k: nat, i: nat, fp: nat)
    requires i < Pow2(k)
    ensures Alt(h32, k, Alt(h32, k, i, fp), fp) == i
  {
    var n, h := Pow2(k), h32(fp);
    XorMasked(i, h, k);
    XorMasked(Xor(i, h % n), h, k);
    XorCancels(i, h % n);
    ModUnique(0, n, i);
    assert Xor(i, h) % n == Xor(i, h % n);
    XorMasked(i, h % n, k);
    ModUnique(0, n, h % n);
  }

  /** A class fixes its bucket pair: it is seen from exactly two buckets. */
  lemma ClassFixesPair(h32: nat -> nat, k: nat, i: nat, j: nat, fp: nat)
    requires i < Pow2(k) && j < Pow2(k)
    ensures ClassOf(h32, k, i, fp) == ClassOf(h32, k, j, fp) <==> (j == i || j == Alt(h32, k, i, fp))
  {
    AltInvolution(h32, k, i, fp);
    AltInvolution(h32, k, j, fp);
  }

  // Every occupied slot is the recorded place of its class, and conversely.
  ghost predicate Rep(h32: nat -> nat, k: nat, t: seq<nat>, pos: map<Class, nat>)
  {
    && |t| == SLOTS * Pow2(k)
    && (forall j :: 0 <= j < |t| && t[j] != 0 ==>
          ClassAt(h32, k, j, t[j]) in pos && pos[ClassAt(h32, k, j, t[j])] == j)
    && (forall c :: c in pos ==>
          pos[c] < |t| && t[pos[c]] != 0 && ClassAt(h32, k, pos[c], t[pos[c]]) == c)
  }

  // The map that a table stands for.
  ghost function Contents(t: seq<nat>, pos: map<Class, nat>): map<Class, nat>
    requires forall c :: c in pos ==> pos[c] < |t|
  {
    map c | c in pos :: t[pos[c]] % VALUES
  }

  ghost function Occupied(t: seq<nat>): set<nat> { set j: nat | j < |t| && t[j] != 0 }

  // A value is rewritten in place.
  lemma Rewrite(h32: nat -> nat, k: nat, t: seq<nat>, pos: map<Class, nat>, j: nat, word: nat)
    requires Rep(h32, k, t, pos) && j < |t| && t[j] != 0 && word / VALUES == t[j] / VALUES && word != 0
    ensures Rep(h32, k, t[j := word], pos) && Occupied(t[j := word]) == Occupied(t)
    ensures Contents(t[j := word], pos) == Contents(t, pos)[ClassAt(h32, k, j, word) := word % VALUES]
  {
    var c := ClassAt(h32, k, j, word);
    assert ClassAt(h32, k, j, t[j]) == c && c in pos && pos[c] == j;
    forall d | d in pos && d != c
      ensures pos[d] != j
    {
    }
  }

  // A class goes into an empty slot.
  lemma Fill(h32: nat -> nat, k: nat, t: seq<nat>, pos: map<Class, nat>, j: nat, word: nat)
    requires Rep(h32, k, t, pos) && j < |t| && t[j] == 0 && word != 0
    requires ClassAt(h32, k, j, word) !in pos
    ensures var c := ClassAt(h32, k, j, word);
            && Rep(h32, k, t[j := word], pos[c := j])
            && Contents(t[j := word], pos[c := j]) == Contents(t, pos)[c := word % VALUES]
            && |Occupied(t[j := word])| == |Occupied(t)| + 1
  {
    hide ClassAt, Pow2;
    assert Occupied(t[j := word]) == Occupied(t) + {j};
  }

  // Where the classes are once the word takes slot j from class v
  ghost function Moved(pos: map<Class, nat>, v: Class, c: Class, j: nat): map<Class, nat> { (pos - {v})[c := j] }

  lemma DisplaceRep(h32: nat -> nat, k: nat, t: seq<nat>, pos: map<Class, nat>, j: nat, word: nat)
    requires Rep(h32, k, t, pos) && j < |t| && t[j] != 0 && word != 0
    requires ClassAt(h32, k, j, word) !in pos
    ensures var v := ClassAt(h32, k, j, t[j]);
            && v in pos && pos[v] == j && (forall d :: d in pos && d != v ==> pos[d] != j)
            && Rep(h32, k, t[j := word], Moved(pos, v, ClassAt(h32, k, j, word), j))
            && Occupied(t[j := word]) == Occupied(t)
  {
    hide ClassAt, Pow2;
    var c, v := ClassAt(h32, k, j, word), ClassAt(h32, k, j, t[j]);
    assert v in pos && pos[v] == j;
    forall d | d in pos && d != v ensures pos[d] != j {}
    var now, pos' := t[j := word], Moved(pos, v, c, j);
    forall i | 0 <= i < |now| && now[i] != 0
      ensures ClassAt(h32, k, i, now[i]) in pos' && pos'[ClassAt(h32, k, i, now[i])] == i
    {
      if i != j { assert now[i] == t[i]; }
    }
  }

  lemma DisplaceContents(t: seq<nat>, pos: map<Class, nat>, c: Class, v: Class, j: nat, word: nat)
    requires forall d :: d in pos ==> pos[d] < |t|
    requires v in pos && pos[v] == j && c !in pos && forall d :: d in pos && d != v ==> pos[d] != j
    ensures var pos' := Moved(pos, v, c, j);
            && v !in pos' && (forall d :: d in pos' ==> pos'[d] < |t[j := word]|)
            && Contents(t[j := word], pos')[v := t[j] % VALUES] == Contents(t, pos)[c := word % VALUES]
            && Contents(t[j := word], pos') == (Contents(t, pos)[c := word % VALUES]) - {v}
  {
    var now, pos' := t[j := word], Moved(pos, v, c, j);
    forall d | d in pos && d != v ensures now[pos[d]] == t[pos[d]] {}
    var a, b := Contents(now, pos'), Contents(t, pos)[c := word % VALUES];
    assert a[v := t[j] % VALUES] == b;
    assert a == b - {v};
  }

  // An entry in hand takes the slot of another, which comes into the hand.
  lemma Displace(h32: nat -> nat, k: nat, t: seq<nat>, pos: map<Class, nat>, j: nat, word: nat)
    requires Rep(h32, k, t, pos) && j < |t| && t[j] != 0 && word != 0
    requires ClassAt(h32, k, j, word) !in pos
    ensures var c, v := ClassAt(h32, k, j, word), ClassAt(h32, k, j, t[j]);
            var pos' := Moved(pos, v, c, j);
            && v in pos && v !in pos'
            && Rep(h32, k, t[j := word], pos') && Occupied(t[j := word]) == Occupied(t)
            && Contents(t[j := word], pos')[v := t[j] % VALUES] == Contents(t, pos)[c := word % VALUES]
            && Contents(t[j := word], pos') == (Contents(t, pos)[c := word % VALUES]) - {v}
  {
    hide ClassAt, Pow2, Moved, Contents, Occupied;
    DisplaceRep(h32, k, t, pos, j, word);
    DisplaceContents(t, pos, ClassAt(h32, k, j, word), ClassAt(h32, k, j, t[j]), j, word);
  }

  datatype InsertResult = Inserted | CapacityReached | ValueTooLarge | CuckooCycle

  // One insert: the key's class, the value, the answer, and the class an exhausted chain lost.
  datatype Turn = Turn(c: Class, val: nat, result: InsertResult, lost: Class)

  // What a list of inserts leaves in a table that was empty
  function Replay(turns: seq<Turn>): map<Class, nat>
  {
    if turns == [] then map[]
    else
      var before, t := Replay(turns[..|turns| - 1]), turns[|turns| - 1];
      match t.result
      case Inserted => before[t.c := t.val]
      case CuckooCycle => before[t.c := t.val] - {t.lost}
      case _ => before
  }

  predicate Writes(t: Turn, c: Class)
  {
    t.c == c && (t.result.Inserted? || (t.result.CuckooCycle? && t.lost != c))
  }

  predicate Loses(t: Turn, c: Class) { t.result.CuckooCycle? && t.lost == c }

  // Turn n wrote class c, and no later turn wrote or lost it.
  predicate Stands(turns: seq<Turn>, c: Class, n: nat)
  {
    n < |turns| && Writes(turns[n], c) && forall m :: n < m < |turns| ==> !Writes(turns[m], c) && !Loses(turns[m], c)
  }

  /** A class is present exactly when some turn's write of it stands, with that turn's value. */
  lemma {:induction false} StandingWriteShows(turns: seq<Turn>, c: Class)
    ensures c in Replay(turns) <==> exists n: nat :: Stands(turns, c, n)
    ensures forall n: nat :: Stands(turns, c, n) ==> c in Replay(turns) && Replay(turns)[c] == turns[n].val
  {
    if turns != [] {
      var k := |turns| - 1;
      var before, t := turns[..k], turns[k];
      StandingWriteShows(before, c);
      if Writes(t, c) {
        assert Stands(turns, c, k);
      } else if !Loses(t, c) {
        forall n: nat ensures Stands(turns, c, n) <==> Stands(before, c, n) {}
        if c in Replay(turns) {
          var n: nat :| Stands(before, c, n);
          assert Stands(turns, c, n);
        }
      }
    }
  }

  // The displacement walk on a table: the table so far, the bucket and the entry in hand

  datatype Walker = Walker(table: seq<nat>, bucket: nat, entry: nat)

  // After n kicks that start at bucket i: kick m trades the entry in hand for slot m modulo 4.
  function Walk(h32: nat -> nat, k: nat, t: seq<nat>, i: nat, entry: nat, n: nat): (w: Walker)
    requires |t| == 4 * Pow2(k) && i < Pow2(k)
    ensures |w.table| == |t| && w.bucket < Pow2(k)
  {
    if n == 0 then Walker(t, i, entry)
    else
      var w := Walk(h32, k, t, i, entry, n - 1);
      var j := w.bucket * 4 + (n - 1) % 4;
      Walker(w.table[j := w.entry], Alt(h32, k, w.bucket, w.table[j] / 16), w.table[j])
  }

  predicate HasRoom(t: seq<nat>, bucket: nat)
  {
    exists j :: 0 <= j < |t| && j / 4 == bucket && t[j] == 0
  }

  predicate SameRoom(t: seq<nat>, u: seq<nat>) { |t| == |u| && forall j :: 0 <= j < |t| ==> (u[j] == 0 <==> t[j] == 0) }

  // None of the buckets that the first m kicks reach has an empty slot.
  predicate NoRoomUpTo(h32: nat -> nat, k: nat, t: seq<nat>, i: nat, entry: nat, m: nat)
    requires |t| == 4 * Pow2(k) && i < Pow2(k)
  {
    forall n {:trigger Walk(h32, k, t, i, entry, n)} :: 1 <= n <= m ==>
      !HasRoom(t, Walk(h32, k, t, i, entry, n).bucket)
  }

  // None of the 500 buckets the walk reaches has an empty slot.
  predicate Exhausted(h32: nat -> nat, k: nat, t: seq<nat>, i: nat, entry: nat)
    requires |t| == 4 * Pow2(k) && i < Pow2(k)
  {
    NoRoomUpTo(h32, k, t, i, entry, 500)
  }

  lemma FirstBucketOnly(h32: nat -> nat, k: nat, t: seq<nat>, i: nat, entry: nat)
    requires |t| == 4 * Pow2(k) && i < Pow2(k)
    ensures NoRoomUpTo(h32, k, t, i, entry, 0) && SameRoom(t, t) && Walk(h32, k, t, i, entry, 0) == Walker(t, i, entry)
  {
  }

  lemma OneMoreBucket(h32: nat -> nat, k: nat, t: seq<nat>, i: nat, entry: nat, m: nat)
    requires |t| == 4 * Pow2(k) && i < Pow2(k) && NoRoomUpTo(h32, k, t, i, entry, m)
    ensures var b := Walk(h32, k, t, i, entry, m + 1).bucket;
            && (!HasRoom(t, b) ==> NoRoomUpTo(h32, k, t, i, entry, m + 1))
            && (HasRoom(t, b) ==> forall far: nat :: far > m ==> !NoRoomUpTo(h32, k, t, i, entry, far))
  {
    hide Pow2, HasRoom;
    var b := Walk(h32, k, t, i, entry, m + 1).bucket;
    if HasRoom(t, b) {
      forall far: nat | far > m ensures !NoRoomUpTo(h32, k, t, i, entry, far) {
        assert !(!HasRoom(t, Walk(h32, k, t, i, entry, m + 1).bucket));
      }
    }
  }

  /** A hash is split into its low k bits and, unless they are all zero, the 28 bits from bit 32 on. */
  lemma DecomposedByBits(h: nat, k: nat, i: nat)
    ensures Bit(FirstBucket(h, k), i) <==> i < k && Bit(h, i)
    ensures Fingerprint(h) == 1 || (Bit(Fingerprint(h), i) <==> i < 28 && Bit(h, 32 + i))
    ensures (exists j: nat :: 32 <= j < 60 && Bit(h, j)) ==> (Bit(Fingerprint(h), i) <==> i < 28 && Bit(h, 32 + i))
  {
    LowBits(h, k, i);
    assert Pow2(10) == 1024;
    assert Pow2(20) == 1048576;
    assert Pow2(28) == FINGERPRINTS && Pow2(32) == 0x1_0000_0000 by {
      assert Pow2(24) == 16777216;
      assert Pow2(30) == 1073741824;
    }
    var high := Quotient(h, Pow2(32));
    LowBits(high, 28, i);
    ShiftedBit(h, 32, i);
    if exists j: nat :: 32 <= j < 60 && Bit(h, j) {
      var j: nat :| 32 <= j < 60 && Bit(h, j);
      LowBits(high, 28, j - 32);
      ShiftedBit(h, 32, j - 32);
      ZeroHasNoBit(j - 32);
    }
  }

  // An exhausted chain loses a class that was there, or the one just written.
  predicate LosesSomething(turns: seq<Turn>, k: nat)
    requires k < |turns|
  {
    turns[k].result.CuckooCycle? ==> turns[k].lost in Replay(turns[..k])[turns[k].c := turns[k].val]
  }

  lemma LossesStay(turns: seq<Turn>, t: Turn)
    requires forall k :: 0 <= k < |turns| ==> LosesSomething(turns, k)
    requires t.result.CuckooCycle? ==> t.lost in Replay(turns)[t.c := t.val]
    ensures forall k :: 0 <= k <= |turns| ==> LosesSomething(turns + [t], k)
  {
    var more := turns + [t];
    assert more[..|turns|] == turns;
    forall k | 0 <= k < |turns| ensures LosesSomething(more, k) {
      assert LosesSomething(turns, k) && more[..k] == turns[..k];
    }
  }

  lemma {:induction false} AllWritten(turns: seq<Turn>, x: nat)
    requires x < |turns| && forall k :: 0 <= k < |turns| ==> turns[k].result.Inserted?
    ensures turns[x].c in Replay(turns)
  {
    if x < |turns| - 1 { AllWritten(turns[..|turns| - 1], x); }
  }

  // The two buckets a class can be in
  predicate InPair(h32: nat -> nat, k: nat, c: Class, i: nat, j: nat)
  {
    (c.home == i && Alt(h32, k, c.home, c.fp) == j) || (c.home == j && Alt(h32, k, c.home, c.fp) == i)
  }

  predicate Distinct(cs: seq<Class>) { forall x, y :: 0 <= x < y < |cs| ==> cs[x] != cs[y] }

  // A class sits in one of its two buckets.
  lemma PlacedInPair(h32: nat -> nat, k: nat, t: seq<nat>, pos: map<Class, nat>, c: Class, i: nat, j: nat)
    requires Rep(h32, k, t, pos) && c in pos && InPair(h32, k, c, i, j)
    ensures pos[c] / SLOTS == i || pos[c] / SLOTS == j
  {
    var b := pos[c] / SLOTS;
    assert ClassAt(h32, k, pos[c], t[pos[c]]) == c;
    assert b < Pow2(k);
    AltInvolution(h32, k, b, c.fp);
  }

  lemma SharePlace(h32: nat -> nat, k: nat, t: seq<nat>, pos: map<Class, nat>, cs: seq<Class>, i: nat, j: nat)
    returns (x: nat, y: nat)
    requires Rep(h32, k, t, pos) && |cs| > 8
    requires forall x :: 0 <= x < |cs| ==> cs[x] in pos && InPair(h32, k, cs[x], i, j)
    ensures x < y < |cs| && pos[cs[x]] == pos[cs[y]]
  {
    var f: seq<nat> := seq(|cs|, x requires 0 <= x < |cs| =>
      if pos[cs[x]] / SLOTS == i then pos[cs[x]] % SLOTS else SLOTS + pos[cs[x]] % SLOTS);
    hide Alt, InPair, Rep;
    forall x | 0 <= x < |cs| ensures f[x] < 8 && (pos[cs[x]] / SLOTS == i || pos[cs[x]] / SLOTS == j) {
      PlacedInPair(h32, k, t, pos, cs[x], i, j);
    }
    x, y := Pigeonhole(f, 8);
  }

  /** A pair of buckets has eight slots: of nine classes of one pair some class is not in the table. */
  lemma NineDoNotFit(h32: nat -> nat, k: nat, t: seq<nat>, pos: map<Class, nat>, cs: seq<Class>, i: nat, j: nat)
    requires Rep(h32, k, t, pos) && |cs| > 8 && Distinct(cs)
    requires forall x :: 0 <= x < |cs| ==> InPair(h32, k, cs[x], i, j)
    ensures exists x :: 0 <= x < |cs| && cs[x] !in pos
  {
    hide Rep, InPair;
    if forall x :: 0 <= x < |cs| ==> cs[x] in pos {
      var x, y := SharePlace(h32, k, t, pos, cs, i, j);
      OnePlace(h32, k, t, pos, cs[x], cs[y]);
    }
  }

  lemma OnePlace(h32: nat -> nat, k: nat, t: seq<nat>, pos: map<Class, nat>, c: Class, d: Class)
    requires Rep(h32, k, t, pos) && c in pos && d in pos && pos[c] == pos[d]
    ensures c == d
  {
  }

  // A hash whose fingerprint is the length of the key, all in bucket 0, and a mix of one bit
  function LengthHash(key: string): nat { |key| * 0x1_0000_0000 }

  function OneBit(fp: nat): nat { 1 }

  /** Nine keys of one pair, under one choice of hash functions. */
  lemma NineKeysOfOnePair(n: nat)
    requires 1 <= n <= 9
    ensures var c := KeyClass(LengthHash, OneBit, 3, Repeated(n)); c.fp == n && InPair(OneBit, 3, c, 0, 1)
  {
    assert Pow2(3) == 8;
    assert Xor(0, 1) == 1;
    assert Xor(1, 1) == 0;
  }

  /** More values than places: two of them are equal. */
  lemma {:induction false} Pigeonhole(f: seq<nat>, n: nat) returns (i: nat, j: nat)
    requires |f| > n > 0 && forall x :: 0 <= x < |f| ==> f[x] < n
    ensures i < j < |f| && f[i] == f[j]
    decreases n
  {
    if n == 1 {
      i, j := 0, 1;
    } else if exists p, q :: 0 <= p < q < |f| && f[p] == f[q] == n - 1 {
      i, j :| 0 <= i < j < |f| && f[i] == f[j] == n - 1;
    } else {
      var p := if exists x :: 0 <= x < |f| && f[x] == n - 1 then var x :| 0 <= x < |f| && f[x] == n - 1; x else 0;
      var g := f[..p] + f[p + 1..];
      i, j := Pigeonhole(g, n - 1);
      if i >= p { i := i + 1; }
      if j >= p { j := j + 1; }
    }
  }

  function Code(c: Class, k: nat): nat { c.fp * Pow2(k) + c.home }

  lemma CodeBounded(c: Class, k: nat)
    requires c.fp < FINGERPRINTS && c.home < Pow2(k)
    ensures Code(c, k) < FINGERPRINTS * Pow2(k)
  {
    MulStrict(c.fp, FINGERPRINTS, Pow2(k));
  }

  lemma CodeInjective(c: Class, d: Class, k: nat)
    requires c.home < Pow2(k) && d.home < Pow2(k) && Code(c, k) == Code(d, k)
    ensures c == d
  {
    ModUnique(c.fp, Pow2(k), c.home);
    ModUnique(d.fp, Pow2(k), d.home);
    if c.fp < d.fp { MulStrict(c.fp, d.fp, Pow2(k)); }
    if d.fp < c.fp { MulStrict(d.fp, c.fp, Pow2(k)); }
  }

  lemma ClassBounded(h64: string -> nat, h32: nat -> nat, k: nat, key: string)
    ensures KeyClass(h64, h32, k, key).fp < FINGERPRINTS && KeyClass(h64, h32, k, key).home < Pow2(k)
  {
  }

  function Repeated(n: nat): (s: string) ensures |s| == n { seq(n, _ => 'k') }

  /** Whatever the hash functions and the table size, two different keys share a class. */
  lemma EveryHashCollides(h64: string -> nat, h32: nat -> nat, k: nat) returns (a: string, b: string)
    ensures a != b && KeyClass(h64, h32, k, a) == KeyClass(h64, h32, k, b)
  {
    hide KeyClass, Pow2, Code;
    var n := FINGERPRINTS * Pow2(k);
    var f := seq(n + 1, i requires 0 <= i <= n => Code(KeyClass(h64, h32, k, Repeated(i)), k));
    forall x | 0 <= x < |f| ensures f[x] < n {
      ClassBounded(h64, h32, k, Repeated(x));
      CodeBounded(KeyClass(h64, h32, k, Repeated(x)), k);
    }
    var i, j := Pigeonhole(f, n);
    a, b := Repeated(i), Repeated(j);
    ClassBounded(h64, h32, k, a);
    ClassBounded(h64, h32, k, b);
    CodeInjective(KeyClass(h64, h32, k, a), KeyClass(h64, h32, k, b), k);
  }

  // The bucket count of NewMaplet after n doublings, in 32 bits
  function Doubled(n: nat): nat { if n < 32 then Pow2(n) else 0 }

  predicate StillSmall(n: nat, minSlots: real) { (Doubled(n) * SLOTS % 0x1_0000_0000) as real < minSlots }

  /** The sizing loop of NewMaplet ends exactly when at most 2^31 slots are asked for. */
  lemma SizingEnds(minSlots: real)
    ensures (exists n: nat :: !StillSmall(n, minSlots)) <==> minSlots <= 2147483648.0
  {
    PowersUpTo31();
    if minSlots <= 2147483648.0 {
      assert !StillSmall(29, minSlots);
    } else {
      forall n: nat ensures StillSmall(n, minSlots) {
        if n <= 29 { PowMonotone(n, 29); }
      }
    }
  }

  lemma PowersUpTo31()
    ensures Pow2(29) == 536870912 && Pow2(30) == 1073741824 && Pow2(31) == 2147483648
  {
    assert Pow2(10) == 1024;
    assert Pow2(20) == 1048576;
  }

  lemma {:induction false} PowMonotone(a: nat, b: nat)
    requires a <= b
    ensures Pow2(a) <= Pow2(b)
  {
    if a < b { PowMonotone(a, b - 1); }
  }
}

module MapletTable {
  import opened Bits
  import opened MapletSpec

  class Maplet {
    const hash64: string -> nat
    const hash32: nat -> nat
    // numBuckets is 2^bits and the mask numBuckets - 1
    const bits: nat
    const maxCount: nat
    const buckets: array<nat>
    var count: nat
    ghost var pos: map<Class, nat>

    ghost predicate Valid()
      reads this, buckets
    {
      && Rep(hash32, bits, buckets[..], pos)
      && buckets.Length == SLOTS * Pow2(bits)
      && count == |Occupied(buckets[..])|
      && maxCount <= SLOTS * Pow2(bits)
      && forall j :: 0 <= j < buckets.Length && buckets[j] != 0 ==> buckets[j] / VALUES > 0
    }

    ghost function View(): map<Class, nat>
      requires Valid()
      reads this, buckets
    {
      Contents(buckets[..], pos)
    }

    ghost function ClassFor(key: string): Class { KeyClass(hash64, hash32, bits, key) }

    // The slot of `bucket` that holds fingerprint fp, or SLOTS.
    method FindEntry(bucket: nat, fp: nat) returns (s: nat)
      requires Valid() && bucket < Pow2(bits) && fp > 0
      ensures s <= SLOTS
      ensures s < SLOTS ==> Word(bucket, s) != 0 && Word(bucket, s) / VALUES == fp
      ensures s == SLOTS ==> forall r: nat :: r < SLOTS ==> Word(bucket, r) / VALUES != fp
    {
      hide Rep, Occupied, Pow2;
      s := 0;
      while s < SLOTS
        invariant s <= SLOTS
        invariant forall r: nat :: r < s ==> Word(bucket, r) / VALUES != fp
      {
        SlotInTable(bucket, s, bits);
        if buckets[bucket * SLOTS + s] != 0 && buckets[bucket * SLOTS + s] / VALUES == fp {
          return;
        }
        s := s + 1;
      }
    }

    // The first empty slot of `bucket`, or SLOTS.
    method FindEmpty(bucket: nat) returns (s: nat)
      requires Valid() && bucket < Pow2(bits)
      ensures s <= SLOTS
      ensures s < SLOTS ==> Word(bucket, s) == 0
      ensures s == SLOTS ==> Full(bucket)
    {
      hide Rep, Occupied, Pow2;
      s := 0;
      while s < SLOTS
        invariant s <= SLOTS
        invariant forall r: nat :: r < s ==> Word(bucket, r) != 0
      {
        SlotInTable(bucket, s, bits);
        if buckets[bucket * SLOTS + s] == 0 {
          return;
        }
        s := s + 1;
      }
    }

    ghost function Word(bucket: nat, s: nat): nat
      reads buckets
    {
      if bucket * SLOTS + s < buckets.Length then buckets[bucket * SLOTS + s] else 0
    }

    lemma ViewKeys()
      requires Valid()
      ensures forall c :: c in View() <==> c in pos
    {
    }

    ghost predicate Full(bucket: nat)
      reads buckets
    {
      forall r: nat :: r < SLOTS ==> Word(bucket, r) != 0
    }

    lemma Decomposed(key: string)
      ensures FirstBucket(hash64(key), bits) < Pow2(bits) && Fingerprint(hash64(key)) > 0
      ensures ClassFor(key) == ClassOf(hash32, bits, FirstBucket(hash64(key), bits), Fingerprint(hash64(key)))
    {
    }

    // A class absent from both its buckets is absent from the table.
    lemma AbsentFromPair(i1: nat, i2: nat, fp: nat)
      requires Valid() && i1 < Pow2(bits) && i2 == Alt(hash32, bits, i1, fp) && fp > 0
      requires forall r: nat :: r < SLOTS ==> Word(i1, r) / VALUES != fp
      requires forall r: nat :: r < SLOTS ==> Word(i2, r) / VALUES != fp
      ensures ClassOf(hash32, bits, i1, fp) !in View()
    {
      var c := ClassOf(hash32, bits, i1, fp);
      if c in pos {
        var j := pos[c];
        assert ClassAt(hash32, bits, j, buckets[j]) == c;
        ClassFixesPair(hash32, bits, i1, j / SLOTS, fp);
        var held := Word(j / SLOTS, j % SLOTS);
        assert false;
      }
    }

    // NewMaplet: the least power of two that holds the keys at 85% load, at least 8 buckets.
    constructor (expectedKeys: int, h64: string -> nat, h32: nat -> nat)
      requires expectedKeys as real / 0.85 <= 2147483648.0
      ensures Valid() && View() == map[] && fresh(buckets)
      ensures hash64 == h64 && hash32 == h32 && bits >= 3
      ensures (SLOTS * Pow2(bits)) as real >= expectedKeys as real / 0.85
      ensures bits > 3 ==> (SLOTS * Pow2(bits - 1)) as real < expectedKeys as real / 0.85
      ensures bits <= 29 && maxCount == ((SLOTS * Pow2(bits)) as real * 0.90).Floor >= 28
    {
      var minSlots := expectedKeys as real / 0.85;
      var k, n := 0, 1;
      while (n * SLOTS) as real < minSlots
        invariant n == Pow2(k) && k <= 29
        invariant k > 0 ==> (SLOTS * Pow2(k - 1)) as real < minSlots
        decreases 29 - k
      {
        PowersUpTo31();
        n := n * 2;
        k := k + 1;
      }
      if n < 8 {
        n := 8;
        k := 3;
        assert Pow2(3) == 8;
      }
      hash64, hash32, bits, count, pos := h64, h32, k, 0, map[];
      maxCount := ((n * SLOTS) as real * 0.90).Floor;
      buckets := new nat[n * SLOTS](_ => 0);
      new;
      assert Occupied(buckets[..]) == {};
    }
  
    // Lookup: the value of the key's class, if the class is present.
    method Lookup(key: string) returns (val: nat, found: bool)
      requires Valid()
      ensures found <==> ClassFor(key) in View()
      ensures val == if found then View()[ClassFor(key)] else 0
    {
      var i1, fp := FirstBucket(hash64(key), bits), Fingerprint(hash64(key));
      var i2 := Alt(hash32, bits, i1, fp);
      var s := FindEntry(i1, fp);
      if s < SLOTS {
        FoundAt(i1, i1, s, fp);
        return buckets[i1 * SLOTS + s] % VALUES, true;
      }
      s := FindEntry(i2, fp);
      if s < SLOTS {
        FoundAt(i1, i2, s, fp);
        return buckets[i2 * SLOTS + s] % VALUES, true;
      }
      AbsentFromPair(i1, i2, fp);
      return 0, false;
    }

    // A slot of the pair that holds the fingerprint is the place of the class.
    lemma FoundAt(i1: nat, i: nat, s: nat, fp: nat)
      requires Valid() && i1 < Pow2(bits) && fp > 0 && s < SLOTS
      requires i == i1 || i == Alt(hash32, bits, i1, fp)
      requires Word(i, s) != 0 && Word(i, s) / VALUES == fp
      ensures i * SLOTS + s < buckets.Length
      ensures ClassAt(hash32, bits, i * SLOTS + s, buckets[i * SLOTS + s]) == ClassOf(hash32, bits, i1, fp)
      ensures ClassOf(hash32, bits, i1, fp) in pos && pos[ClassOf(hash32, bits, i1, fp)] == i * SLOTS + s
    {
      SlotInTable(i, s, bits);
      ClassFixesPair(hash32, bits, i1, i, fp);
    }

    // Insert: the class of the key gets the value, through any chain of displacements. An
    // exhausted chain leaves every class but one, the entry left in hand, as if it had succeeded.
    method Insert(key: string, val: nat) returns (result: InsertResult, ghost lost: Class)
      requires Valid()
      modifies this, buckets
      ensures Valid()
      ensures result.CapacityReached? <==> old(count) >= maxCount
      ensures result.ValueTooLarge? <==> old(count) < maxCount && val >= VALUES
      ensures result.CapacityReached? || result.ValueTooLarge? ==> View() == old(View()) && count == old(count)
      ensures result.Inserted? ==>
                View() == old(View())[ClassFor(key) := val]
                && count == old(count) + (if ClassFor(key) in old(View()) then 0 else 1)
      ensures result.CuckooCycle? ==>
                && count == old(count) && ClassFor(key) !in old(View()) && old(View()) != map[]
                && lost in old(View())[ClassFor(key) := val]
                && View() == old(View())[ClassFor(key) := val] - {lost}
      ensures result.CuckooCycle? <==> old(Stuck(key, val))
    {
      hide Rep, Contents, Occupied, ClassOf, Alt, Fingerprint, FirstBucket, HasRoom, Exhausted, Pow2;
      lost := ClassFor(key);
      if count >= maxCount { return CapacityReached, lost; }
      if val >= VALUES { return ValueTooLarge, lost; }
      var i1, fp := FirstBucket(hash64(key), bits), Fingerprint(hash64(key));
      var i2 := Alt(hash32, bits, i1, fp);
      var entry := PackSlot(fp, val);
      Decomposed(key);

      var s := FindEntry(i1, fp);
      if s < SLOTS {
        Update(i1, i1, s, fp, entry);
        return Inserted, lost;
      }
      var s2 := FindEntry(i2, fp);
      if s2 < SLOTS {
        Update(i1, i2, s2, fp, entry);
        return Inserted, lost;
      }
      AbsentFromPair(i1, i2, fp);
      s := FindEmpty(i1);
      RoomMeans(buckets[..], i1, s);
      if s < SLOTS {
        Place(i1, s, entry);
        return Inserted, lost;
      }
      s2 := FindEmpty(i2);
      RoomMeans(buckets[..], i2, s2);
      if s2 < SLOTS {
        ClassFixesPair(hash32, bits, i1, i2, fp);
        Place(i2, s2, entry);
        return Inserted, lost;
      }
      SomethingThere(i1);
      result, lost := Kick(i1, entry);
    }

    // A full bucket holds some class.
    lemma SomethingThere(i: nat)
      requires Valid() && i < Pow2(bits) && Full(i)
      ensures View() != map[]
    {
      SlotInTable(i, 0, bits);
      assert Word(i, 0) != 0;
      ViewKeys();
      assert ClassAt(hash32, bits, i * SLOTS, buckets[i * SLOTS]) in pos;
    }

    method Update(i1: nat, i: nat, s: nat, fp: nat, entry: nat)
      requires Valid() && i1 < Pow2(bits) && s < SLOTS && (i == i1 || i == Alt(hash32, bits, i1, fp))
      requires Word(i, s) != 0 && Word(i, s) / VALUES == fp && entry / VALUES == fp && fp > 0
      modifies buckets
      ensures Valid()
      ensures View() == old(View())[ClassOf(hash32, bits, i1, fp) := entry % VALUES]
      ensures ClassOf(hash32, bits, i1, fp) in old(View())
    {
      hide Pow2, Alt, ClassOf, Occupied;
      FoundAt(i1, i, s, fp);
      ghost var t, j := buckets[..], i * SLOTS + s;
      Rewrite(hash32, bits, t, pos, j, entry);
      buckets[i * SLOTS + s] := entry;
      assert buckets[..] == t[j := entry];
    }

    method Place(i: nat, s: nat, entry: nat)
      requires Valid() && i < Pow2(bits) && s < SLOTS && Word(i, s) == 0 && entry / VALUES > 0
      requires ClassOf(hash32, bits, i, entry / VALUES) !in View()
      modifies this, buckets
      ensures Valid()
      ensures View() == old(View())[ClassOf(hash32, bits, i, entry / VALUES) := entry % VALUES]
      ensures count == old(count) + 1
    {
      SlotInTable(i, s, bits);
      ghost var t, j := buckets[..], i * SLOTS + s;
      Fill(hash32, bits, t, pos, j, entry);
      pos := pos[ClassOf(hash32, bits, i, entry / VALUES) := j];
      buckets[i * SLOTS + s] := entry;
      assert buckets[..] == t[j := entry];
      count := count + 1;
    }

    // FindEmpty's answer, as room in a table with the same empty slots.
    lemma RoomMeans(t: seq<nat>, bucket: nat, s: nat)
      requires Valid() && bucket < Pow2(bits) && |t| == buckets.Length && s <= SLOTS
      requires SameRoom(t, buckets[..])
      requires (s < SLOTS ==> Word(bucket, s) == 0) && (s == SLOTS ==> Full(bucket))
      ensures HasRoom(t, bucket) <==> s < SLOTS
    {
      hide Rep, Occupied, Pow2;
      if s < SLOTS {
        SlotInTable(bucket, s, bits);
      } else {
        forall j | 0 <= j < |t| && j / 4 == bucket ensures t[j] != 0 {
          assert Word(bucket, j % 4) != 0;
        }
      }
    }

    // A new class, both its buckets full, and a walk that finds no room.
    ghost predicate Stuck(key: string, val: nat)
      requires Valid()
      reads this, buckets
    {
      var i1, fp := FirstBucket(hash64(key), bits), Fingerprint(hash64(key));
      && count < maxCount && val < VALUES && ClassFor(key) !in View()
      && !HasRoom(buckets[..], i1) && !HasRoom(buckets[..], Alt(hash32, bits, i1, fp))
      && i1 < Pow2(bits) && Exhausted(hash32, bits, buckets[..], i1, PackSlot(fp, val))
    }

    // The displacement loop. The hand holds an entry whose class the table lacks.
    method Kick(i1: nat, slotEntry: nat) returns (result: InsertResult, ghost lost: Class)
      requires Valid() && i1 < Pow2(bits) && Full(i1) && slotEntry / VALUES > 0
      requires ClassOf(hash32, bits, i1, slotEntry / VALUES) !in View()
      modifies this, buckets
      ensures Valid() && (result.Inserted? || result.CuckooCycle?)
      ensures var target := old(View())[ClassOf(hash32, bits, i1, slotEntry / VALUES) := slotEntry % VALUES];
              && (result.Inserted? ==> View() == target && count == old(count) + 1)
              && (result.CuckooCycle? ==> lost in target && View() == target - {lost} && count == old(count))
      ensures result.CuckooCycle? <==> Exhausted(hash32, bits, old(buckets[..]), i1, slotEntry)
    {
      hide Rep, Contents, Occupied, ClassOf, Pow2, Alt, HasRoom, NoRoomUpTo, Walk, SameRoom;
      ghost var t := buckets[..];
      FirstBucketOnly(hash32, bits, t, i1, slotEntry);
      ghost var target := View()[ClassOf(hash32, bits, i1, slotEntry / VALUES) := slotEntry % VALUES];
      var bucket: nat, entry: nat, kick: nat := i1, slotEntry, 0;
      lost := ClassOf(hash32, bits, bucket, entry / VALUES);
      while kick < MAX_KICKS
        invariant Valid() && bucket < Pow2(bits) && Full(bucket) && entry / VALUES > 0
        invariant lost == ClassOf(hash32, bits, bucket, entry / VALUES) && lost !in View()
        invariant View()[lost := entry % VALUES] == target && count == old(count)
        invariant View() == target - {lost}
        invariant kick <= MAX_KICKS && Walker(buckets[..], bucket, entry) == Walk(hash32, bits, t, i1, slotEntry, kick)
        invariant SameRoom(t, buckets[..])
        invariant NoRoomUpTo(hash32, bits, t, i1, slotEntry, kick)
      {
        bucket, entry, lost := KickOnce(t, i1, slotEntry, kick, bucket, entry);
        var s := FindEmpty(bucket);
        RoomMeans(t, bucket, s);
        OneMoreBucket(hash32, bits, t, i1, slotEntry, kick);
        if s < SLOTS {
          Place(bucket, s, entry);
          return Inserted, lost;
        }
        kick := kick + 1;
      }
      return CuckooCycle, lost;
    }

    // One kick of the walk from bucket i1
    method KickOnce(ghost t: seq<nat>, ghost i1: nat, ghost slotEntry: nat, kick: nat, bucket: nat, entry: nat)
      returns (next: nat, victim: nat, ghost lost: Class)
      requires Valid() && bucket < Pow2(bits) && Full(bucket) && entry / VALUES > 0
      requires ClassOf(hash32, bits, bucket, entry / VALUES) !in View()
      requires |t| == 4 * Pow2(bits) && i1 < Pow2(bits) && SameRoom(t, buckets[..])
      requires Walker(buckets[..], bucket, entry) == Walk(hash32, bits, t, i1, slotEntry, kick)
      modifies this, buckets
      ensures Valid() && count == old(count) && next < Pow2(bits) && victim / VALUES > 0
      ensures lost == ClassOf(hash32, bits, next, victim / VALUES) && lost !in View()
      ensures View()[lost := victim % VALUES]
           == old(View())[ClassOf(hash32, bits, bucket, entry / VALUES) := entry % VALUES]
      ensures View() == old(View())[ClassOf(hash32, bits, bucket, entry / VALUES) := entry % VALUES] - {lost}
      ensures Walker(buckets[..], next, victim) == Walk(hash32, bits, t, i1, slotEntry, kick + 1)
      ensures SameRoom(t, buckets[..])
    {
      hide Rep, Contents, Occupied, ClassOf, Pow2, Alt;
      next, victim, lost := Swap(bucket, kick % SLOTS, entry);
    }

    // One kick: the hand's entry takes a slot, and the victim's other bucket comes next.
    method Swap(bucket: nat, s: nat, entry: nat) returns (next: nat, victim: nat, ghost lost: Class)
      requires Valid() && bucket < Pow2(bits) && s < SLOTS && Full(bucket) && entry / VALUES > 0
      requires ClassOf(hash32, bits, bucket, entry / VALUES) !in View()
      modifies this, buckets
      ensures Valid() && count == old(count) && next < Pow2(bits) && victim / VALUES > 0
      ensures lost == ClassOf(hash32, bits, next, victim / VALUES) && lost !in View()
      ensures View()[lost := victim % VALUES]
           == old(View())[ClassOf(hash32, bits, bucket, entry / VALUES) := entry % VALUES]
      ensures View() == old(View())[ClassOf(hash32, bits, bucket, entry / VALUES) := entry % VALUES] - {lost}
      ensures var j := bucket * SLOTS + s;
              && j < buckets.Length && buckets[..] == old(buckets[..])[j := entry]
              && victim == old(buckets[..])[j] != 0 && next == Alt(hash32, bits, bucket, victim / VALUES)
    {
      hide Pow2, Alt, ClassOf, Contents, Moved, Occupied, Rep;
      ViewKeys();
      SlotInTable(bucket, s, bits);
      ghost var t, j := buckets[..], bucket * SLOTS + s;
      assert Word(bucket, s) != 0;
      Displace(hash32, bits, t, pos, j, entry);
      victim := buckets[bucket * SLOTS + s];
      buckets[bucket * SLOTS + s] := entry;
      next := Alt(hash32, bits, bucket, victim / VALUES);
      ClassFixesPair(hash32, bits, bucket, next, victim / VALUES);
      lost := ClassOf(hash32, bits, bucket, victim / VALUES);
      pos := Moved(pos, lost, ClassOf(hash32, bits, bucket, entry / VALUES), j);
      assert buckets[..] == t[j := entry];
    }
  }

  lemma SlotInTable(i: nat, s: nat, k: nat)
    requires i < Pow2(k) && s < SLOTS
    ensures i * SLOTS + s < SLOTS * Pow2(k)
    ensures (i * SLOTS + s) / SLOTS == i
  {
  }

  // What each turn records of its insert
  ghost predicate Recorded(m: Maplet, ops: seq<(string, nat)>, results: seq<InsertResult>, turns: seq<Turn>)
  {
    && |results| == |turns| == |ops|
    && (forall k :: 0 <= k < |ops| ==>
          turns[k].c == m.ClassFor(ops[k].0) && turns[k].val == ops[k].1 && turns[k].result == results[k])
    && (forall k :: 0 <= k < |ops| ==> LosesSomething(turns, k))
    && (forall k :: 0 <= k < |ops| && results[k].ValueTooLarge? ==> ops[k].1 >= VALUES)
    && (forall k :: 0 <= k < |ops| && results[k].CapacityReached? ==> k >= m.maxCount)
  }

  lemma RecordedGrows(m: Maplet, ops: seq<(string, nat)>, results: seq<InsertResult>, turns: seq<Turn>,
                      op: (string, nat), t: Turn)
    requires Recorded(m, ops, results, turns) && t.c == m.ClassFor(op.0) && t.val == op.1
    requires t.result.CuckooCycle? ==> t.lost in Replay(turns)[t.c := t.val]
    requires t.result.ValueTooLarge? ==> op.1 >= VALUES
    requires t.result.CapacityReached? ==> |ops| >= m.maxCount
    ensures Recorded(m, ops + [op], results + [t.result], turns + [t])
  {
    hide LosesSomething, Replay;
    LossesStay(turns, t);
  }

  // Runs the inserts in order and records each one.
  method InsertAll(m: Maplet, ops: seq<(string, nat)>) returns (results: seq<InsertResult>, ghost turns: seq<Turn>)
    requires m.Valid() && m.View() == map[]
    modifies m, m.buckets
    ensures m.Valid() && m.View() == Replay(turns) && Recorded(m, ops, results, turns)
  {
    hide KeyClass, m.Valid, Replay, Recorded, Rep, Occupied, Contents, Pow2, ClassOf;
    EmptyCount(m);
    NothingYet(m, ops);
    results, turns := [], [];
    var k := 0;
    while k < |ops|
      invariant 0 <= k <= |ops| && m.count <= k
      invariant m.Valid() && m.View() == Replay(turns) && Recorded(m, ops[..k], results, turns)
    {
      var result, lost := m.Insert(ops[k].0, ops[k].1);
      ghost var t := Turn(m.ClassFor(ops[k].0), ops[k].1, result, lost);
      RecordedGrows(m, ops[..k], results, turns, ops[k], t);
      Appended(turns, t);
      assert ops[..k + 1] == ops[..k] + [ops[k]];
      turns := turns + [t];
      results := results + [result];
      k := k + 1;
    }
    assert ops[..k] == ops;
  }

  lemma Appended(turns: seq<Turn>, t: Turn)
    ensures t.result.Inserted? ==> Replay(turns + [t]) == Replay(turns)[t.c := t.val]
    ensures t.result.CuckooCycle? ==> Replay(turns + [t]) == Replay(turns)[t.c := t.val] - {t.lost}
    ensures !t.result.Inserted? && !t.result.CuckooCycle? ==> Replay(turns + [t]) == Replay(turns)
  {
    assert (turns + [t])[..|turns|] == turns;
  }

  lemma NothingYet(m: Maplet, ops: seq<(string, nat)>)
    ensures Replay([]) == map[] && Recorded(m, ops[..0], [], [])
  {
  }

  /**
   Any inserts into a new maplet, refused and exhausted ones included, then a lookup: the key
   is found exactly when some insert's write of its class stands, that is, no later insert
   wrote the class and no exhausted chain lost it since, and the value is that insert's. What
   a chain loses was in the table.
   */
  method InsertsThenLookup(m: Maplet, ops: seq<(string, nat)>, key: string)
    returns (results: seq<InsertResult>, val: nat, found: bool, ghost turns: seq<Turn>)
    requires m.Valid() && m.View() == map[]
    modifies m, m.buckets
    ensures m.Valid() && Recorded(m, ops, results, turns)
    ensures found <==> exists n: nat :: Stands(turns, m.ClassFor(key), n)
    ensures forall n: nat :: Stands(turns, m.ClassFor(key), n) ==> val == ops[n].1
  {
    hide KeyClass, m.Valid, Replay, LosesSomething;
    results, turns := InsertAll(m, ops);
    StandingWriteShows(turns, m.ClassFor(key));
    val, found := m.Lookup(key);
  }

  ghost function ClassesOf(m: Maplet, ops: seq<(string, nat)>): (cs: seq<Class>)
    ensures |cs| == |ops|
  {
    seq(|ops|, x requires 0 <= x < |ops| => m.ClassFor(ops[x].0))
  }

  /** Nine keys of different classes but one pair of buckets: one of the inserts exhausts its chain. */
  method OverfullPairLoses(m: Maplet, ops: seq<(string, nat)>, ghost i: nat, ghost j: nat)
    returns (results: seq<InsertResult>, ghost turns: seq<Turn>)
    requires m.Valid() && m.View() == map[] && 8 < |ops| <= m.maxCount && Distinct(ClassesOf(m, ops))
    requires forall x :: 0 <= x < |ops| ==> ops[x].1 < VALUES && InPair(m.hash32, m.bits, m.ClassFor(ops[x].0), i, j)
    modifies m, m.buckets
    ensures m.Valid() && m.View() == Replay(turns) && Recorded(m, ops, results, turns)
    ensures exists k :: 0 <= k < |ops| && results[k].CuckooCycle?
    ensures exists x :: 0 <= x < |ops| && m.ClassFor(ops[x].0) !in m.View()
  {
    hide KeyClass, InPair, Replay, LosesSomething, Occupied, Contents;
    results, turns := InsertAll(m, ops);
    ghost var cs := ClassesOf(m, ops);
    NineDoNotFit(m.hash32, m.bits, m.buckets[..], m.pos, cs, i, j);
    m.ViewKeys();
    ghost var x :| 0 <= x < |cs| && cs[x] !in m.pos;
    assert m.ClassFor(ops[x].0) !in m.View();
    if forall k :: 0 <= k < |ops| ==> !results[k].CuckooCycle? {
      assert forall k :: 0 <= k < |turns| ==> turns[k].result.Inserted?;
      AllWritten(turns, x);
      assert false;
    }
  }

  function NineInserts(): (ops: seq<(string, nat)>)
    ensures |ops| == 9
  {
    seq(9, x requires 0 <= x < 9 => (Repeated(x + 1), x))
  }

  lemma NineClasses(m: Maplet)
    requires m.hash64 == LengthHash && m.hash32 == OneBit && m.bits == 3
    ensures var ops := NineInserts();
            && Distinct(ClassesOf(m, ops))
            && forall x :: 0 <= x < 9 ==> ops[x].1 < VALUES && InPair(OneBit, 3, m.ClassFor(ops[x].0), 0, 1)
  {
    hide KeyClass, InPair;
    var ops := NineInserts();
    forall x | 0 <= x < 9 ensures m.ClassFor(ops[x].0).fp == x + 1 && InPair(OneBit, 3, m.ClassFor(ops[x].0), 0, 1) {
      NineKeysOfOnePair(x + 1);
    }
  }

  lemma ThreeBits(bits: nat)
    requires bits >= 3 && (bits > 3 ==> (SLOTS * Pow2(bits - 1)) as real < 10 as real / 0.85)
    ensures bits == 3
  {
    if bits > 3 { PowMonotone(3, bits - 1); }
  }

  /** A new maplet for ten keys, nine inserts, and a class lost. */
  method ChainLosesAClass() returns (results: seq<InsertResult>)
    ensures exists k :: 0 <= k < |results| && results[k].CuckooCycle?
  {
    var m := new Maplet(10, LengthHash, OneBit);
    hide KeyClass, InPair, m.Valid, Recorded, Replay, NineInserts, LengthHash, OneBit, ClassesOf, Pow2;
    ThreeBits(m.bits);
    NineClasses(m);
    ghost var turns;
    results, turns := OverfullPairLoses(m, NineInserts(), 0, 1);
    assert |results| == 9 by { SameLength(m, NineInserts(), results, turns); }
  }

  lemma SameLength(m: Maplet, ops: seq<(string, nat)>, results: seq<InsertResult>, turns: seq<Turn>)
    requires Recorded(m, ops, results, turns)
    ensures |results| == |ops|
  {
  }

  /** Two keys of one class, both accepted: the first then answers with the value of the second. */
  method CollidingKeysOverwrite(m: Maplet, a: string, b: string) returns (val: nat, found: bool)
    requires m.Valid() && m.View() == map[] && m.maxCount >= 2
    requires a != b && m.ClassFor(a) == m.ClassFor(b)
    modifies m, m.buckets
    ensures found && val == 2
  {
    EmptyCount(m);
    var first, _ := m.Insert(a, 1);
    assert first.Inserted?;
    var second, _ := m.Insert(b, 2);
    assert second.Inserted?;
    val, found := m.Lookup(a);
  }

  lemma EmptyCount(m: Maplet)
    requires m.Valid() && m.View() == map[]
    ensures m.count == 0
  {
    m.ViewKeys();
    assert Occupied(m.buckets[..]) == {};
  }
}
