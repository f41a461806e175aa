/**
 The edge region table: CIDR prefixes bound to regions, with longest-prefix lookup.
 Text is already parsed: a CIDR is the prefix it denotes, or none when it does not parse.
 */
module EdgeTable {
  import opened Common
  import opened Bits

  datatype Family = V4 | V6

  function Width(f: Family): nat { if f.V4? then 32 else 128 }

  datatype Prefix = Prefix(family: Family, value: nat, bits: nat)

  predicate PrefixOk(p: Prefix) { p.bits <= Width(p.family) && p.value < Pow2(Width(p.family)) }

  datatype Addr = Invalid | IP(family: Family, value: nat, zoned: bool)

  predicate AddrOk(a: Addr) { a.IP? ==> a.value < Pow2(Width(a.family)) }

  datatype Region = Region(id: string, jurisdiction: nat, cidrs: seq<Option<Prefix>>)

  datatype Error = NoRegions | NoID | RegionTwice | NoCIDRs | BadCIDR | PrefixTwice

  // The size of the block a prefix denotes
  function Block(p: Prefix): (m: nat)
    requires PrefixOk(p)
    ensures m > 0
  {
    Pow2(Width(p.family) - p.bits)
  }

  function RoundDown(v: nat, m: nat): (r: nat)
    requires m > 0
    ensures r <= v
  {
    var q: nat := v / m;
    assert v == q * m + v % m;
    q * m
  }

  function Masked(p: Prefix): (q: Prefix)
    requires PrefixOk(p)
    ensures PrefixOk(q) && q.family == p.family && q.bits == p.bits
  {
    Prefix(p.family, RoundDown(p.value, Block(p)), p.bits)
  }

  predicate Contains(p: Prefix, a: Addr)
    requires PrefixOk(p)
  {
    a.IP? && a.family == p.family && !a.zoned && a.value / Block(p) == p.value / Block(p)
  }

  // An IPv4-mapped IPv6 address becomes the IPv4 address; its zone goes with it.
  function Unmap(a: Addr): Addr
  {
    if a.IP? && a.family.V6? && a.value / 0x1_0000_0000 == 0xFFFF then IP(V4, a.value % 0x1_0000_0000, false) else a
  }

  lemma {:induction false} DivOfMultiple(q: nat, m: nat)
    requires m > 0
    ensures q * m / m == q
  {
    assert q * m % m == 0 && q * m == (q * m / m) * m by { MultipleMod(q, m); }
    var k := q * m / m;
    if q < k { MulStrict(q, k, m); }
  }

  lemma {:induction false} MultipleMod(q: nat, m: nat)
    requires m > 0
    ensures q * m % m == 0 && q * m == (q * m / m) * m
  {
    ModUnique(q, m, 0);
    assert q * m + 0 == q * m;
  }

  lemma RoundDownDiv(v: nat, m: nat)
    requires m > 0
    ensures RoundDown(v, m) / m == v / m
  {
    DivOfMultiple(v / m, m);
  }

  lemma SameBlock(p: Prefix)
    requires PrefixOk(p)
    ensures Block(Masked(p)) == Block(p)
  {
    hide RoundDown;
  }

  /** Clearing host bits changes nothing about what a prefix contains. */
  lemma MaskingKeepsContains(p: Prefix, a: Addr)
    requires PrefixOk(p)
    ensures Contains(Masked(p), a) == Contains(p, a)
  {
    hide Pow2, RoundDown, Block;
    RoundDownDiv(p.value, Block(p));
    assert Block(Masked(p)) == Block(p) by { SameBlock(p); }
  }

  // The address agrees with the prefix in its leading bits.
  ghost predicate InNetwork(p: Prefix, a: Addr)
    requires PrefixOk(p)
  {
    && a.IP? && a.family == p.family && !a.zoned
    && AgreeFrom(a.value, p.value, Width(p.family) - p.bits, Width(p.family))
  }

  /** A prefix contains exactly the unzoned addresses of its family with its leading bits. */
  lemma ContainsByBits(p: Prefix, a: Addr)
    requires PrefixOk(p) && AddrOk(a)
    ensures Contains(p, a) <==> InNetwork(p, a)
  {
    hide Pow2;
    if a.IP? && a.family == p.family {
      QuotientIsHighBits(a.value, p.value, Width(p.family) - p.bits, Width(p.family));
    }
  }

  // The address that a lookup takes: ::ffff:w.x.y.z as w.x.y.z without a zone, any other as it is
  ghost predicate Denotes(addr: Addr, a: Addr)
  {
    if addr.IP? && addr.family.V6? && 0xFFFF_0000_0000 <= addr.value <= 0xFFFF_FFFF_FFFF
    then a == IP(V4, addr.value - 0xFFFF_0000_0000, false)
    else a == addr
  }

  lemma UnmapMeans(addr: Addr)
    requires AddrOk(addr)
    ensures Denotes(addr, Unmap(addr)) && AddrOk(Unmap(addr))
  {
    assert Pow2(10) == 1024;
    assert Pow2(20) == 1048576;
    assert Pow2(30) == 1073741824;
    assert Pow2(32) == 0x1_0000_0000;
  }

  /** Two prefixes of one length that contain one address are the same network. */
  lemma SameLengthSameNetwork(p: Prefix, q: Prefix, a: Addr)
    requires PrefixOk(p) && PrefixOk(q) && Contains(p, a) && Contains(q, a) && p.bits == q.bits
    ensures Masked(p) == Masked(q)
  {
  }

  // Cells (i, j): CIDR j of region i

  predicate Cell(rs: seq<Region>, i: nat, j: nat) { i < |rs| && j < |rs[i].cidrs| }

  predicate Parsed(rs: seq<Region>)
  {
    forall i, j {:trigger rs[i].cidrs[j]} :: 0 <= i < |rs| && 0 <= j < |rs[i].cidrs| ==>
      rs[i].cidrs[j].Some? ==> PrefixOk(rs[i].cidrs[j].value)
  }

  predicate Declares(rs: seq<Region>, i: nat, j: nat)
  {
    Cell(rs, i, j) && rs[i].cidrs[j].Some? && PrefixOk(rs[i].cidrs[j].value)
  }

  function At(rs: seq<Region>, i: nat, j: nat): Prefix
    requires Declares(rs, i, j)
  {
    rs[i].cidrs[j].value
  }

  // A configuration that can be indexed
  ghost predicate Good(rs: seq<Region>)
  {
    && |rs| > 0
    && (forall i :: 0 <= i < |rs| ==> rs[i].id != "" && |rs[i].cidrs| > 0)
    && (forall i, k :: 0 <= i < k < |rs| ==> rs[i].id != rs[k].id)
    && (forall i: nat, j: nat {:trigger Cell(rs, i, j)} :: Cell(rs, i, j) ==> Declares(rs, i, j))
    && (forall i: nat, j: nat, k: nat, l: nat {:trigger Declares(rs, i, j), Declares(rs, k, l)} ::
          Declares(rs, i, j) && Declares(rs, k, l) && Masked(At(rs, i, j)) == Masked(At(rs, k, l)) ==> i == k && j == l)
  }

  // (i, j) contains the address and every other declared prefix that does is shorter.
  ghost predicate Wins(rs: seq<Region>, a: Addr, i: nat, j: nat)
  {
    && Declares(rs, i, j) && Contains(At(rs, i, j), a)
    && forall k: nat, l: nat {:trigger Declares(rs, k, l)} ::
         Declares(rs, k, l) && Contains(At(rs, k, l), a) && (k, l) != (i, j) ==> At(rs, k, l).bits < At(rs, i, j).bits
  }

  /** A longest containing prefix is the only one. */
  lemma LongestIsUnique(rs: seq<Region>, a: Addr, i: nat, j: nat)
    requires Good(rs) && Declares(rs, i, j) && Contains(At(rs, i, j), a)
    requires forall k: nat, l: nat :: Declares(rs, k, l) && Contains(At(rs, k, l), a) ==>
               At(rs, k, l).bits <= At(rs, i, j).bits
    ensures Wins(rs, a, i, j)
  {
    forall k: nat, l: nat | Declares(rs, k, l) && Contains(At(rs, k, l), a) && (k, l) != (i, j)
      ensures At(rs, k, l).bits < At(rs, i, j).bits
    {
      if At(rs, k, l).bits == At(rs, i, j).bits { SameLengthSameNetwork(At(rs, k, l), At(rs, i, j), a); }
    }
  }

  // Reordering

  // `to` and `back` are inverse permutations of 0..n.
  predicate Inverse(to: seq<nat>, back: seq<nat>, n: nat)
  {
    && |to| == |back| == n
    && (forall x :: 0 <= x < n ==> to[x] < n && back[to[x]] == x)
    && (forall x :: 0 <= x < n ==> back[x] < n && to[back[x]] == x)
  }

  // Where each region of the new list and each of its CIDRs came from
  datatype Shuffle = Shuffle(to: seq<nat>, back: seq<nat>, inner: seq<(seq<nat>, seq<nat>)>)

  ghost predicate Reorders(rs: seq<Region>, qs: seq<Region>, sh: Shuffle)
  {
    && |rs| == |qs| == |sh.inner| && Inverse(sh.to, sh.back, |rs|)
    && forall i :: 0 <= i < |qs| ==> RegionReordered(rs[sh.to[i]], qs[i], sh.inner[i])
  }

  predicate RegionReordered(r: Region, q: Region, s: (seq<nat>, seq<nat>))
  {
    && q.id == r.id && q.jurisdiction == r.jurisdiction && |q.cidrs| == |r.cidrs|
    && Inverse(s.0, s.1, |r.cidrs|)
    && forall j :: 0 <= j < |q.cidrs| ==> q.cidrs[j] == r.cidrs[s.0[j]]
  }

  lemma CellFrom(rs: seq<Region>, qs: seq<Region>, sh: Shuffle, i: nat, j: nat)
    requires Reorders(rs, qs, sh) && Cell(qs, i, j)
    ensures Cell(rs, sh.to[i], sh.inner[i].0[j]) && qs[i].cidrs[j] == rs[sh.to[i]].cidrs[sh.inner[i].0[j]]
    ensures Declares(qs, i, j) == Declares(rs, sh.to[i], sh.inner[i].0[j])
  {
  }

  lemma CellTo(rs: seq<Region>, qs: seq<Region>, sh: Shuffle, i: nat, j: nat) returns (k: nat, l: nat)
    requires Reorders(rs, qs, sh) && Cell(rs, i, j)
    ensures Cell(qs, k, l) && sh.to[k] == i && sh.inner[k].0[l] == j
    ensures qs[k].id == rs[i].id && qs[k].jurisdiction == rs[i].jurisdiction
  {
    k := sh.back[i];
    assert RegionReordered(rs[sh.to[k]], qs[k], sh.inner[k]);
    l := sh.inner[k].1[j];
  }

  /** Reordering regions and CIDRs keeps a configuration indexable. */
  lemma ReorderedIsGood(rs: seq<Region>, qs: seq<Region>, sh: Shuffle)
    requires Good(rs) && Reorders(rs, qs, sh)
    ensures Good(qs)
  {
    forall i | 0 <= i < |qs| ensures qs[i].id != "" && |qs[i].cidrs| > 0 {
      assert RegionReordered(rs[sh.to[i]], qs[i], sh.inner[i]);
    }
    forall i, k | 0 <= i < k < |qs| ensures qs[i].id != qs[k].id {
      assert RegionReordered(rs[sh.to[i]], qs[i], sh.inner[i]) && RegionReordered(rs[sh.to[k]], qs[k], sh.inner[k]);
      assert sh.back[sh.to[i]] == i && sh.back[sh.to[k]] == k;
    }
    forall i: nat, j: nat | Cell(qs, i, j) ensures Declares(qs, i, j) {
      CellFrom(rs, qs, sh, i, j);
    }
    forall i: nat, j: nat, k: nat, l: nat
      | Declares(qs, i, j) && Declares(qs, k, l) && Masked(At(qs, i, j)) == Masked(At(qs, k, l))
      ensures i == k && j == l
    {
      CellFrom(rs, qs, sh, i, j);
      CellFrom(rs, qs, sh, k, l);
      assert sh.back[sh.to[i]] == i && sh.back[sh.to[k]] == k;
      assert RegionReordered(rs[sh.to[i]], qs[i], sh.inner[i]);
      assert sh.inner[i].1[sh.inner[i].0[j]] == j;
    }
  }

  /** The winner of a lookup keeps its region id and jurisdiction under any reordering. */
  lemma WinnerSurvivesReordering(rs: seq<Region>, qs: seq<Region>, sh: Shuffle, a: Addr, i: nat, j: nat)
    returns (k: nat, l: nat)
    requires Good(rs) && Reorders(rs, qs, sh) && Wins(rs, a, i, j)
    ensures Wins(qs, a, k, l) && qs[k].id == rs[i].id && qs[k].jurisdiction == rs[i].jurisdiction
  {
    hide Contains, Good;
    k, l := CellTo(rs, qs, sh, i, j);
    CellFrom(rs, qs, sh, k, l);
    forall x: nat, y: nat | Declares(qs, x, y) && Contains(At(qs, x, y), a) && (x, y) != (k, l)
      ensures At(qs, x, y).bits < At(qs, k, l).bits
    {
      CellFrom(rs, qs, sh, x, y);
      assert sh.back[sh.to[x]] == x && sh.back[sh.to[k]] == k;
      assert RegionReordered(rs[sh.to[k]], qs[k], sh.inner[k]);
      assert sh.inner[k].1[sh.inner[k].0[l]] == l;
    }
  }

  // The index

  datatype Entry = Entry(prefix: Prefix, regionID: string, jurisdiction: nat)

  datatype Table = Table(entries: seq<Entry>, regions: map<string, Region>)

  datatype Result = Ok(table: Table) | Err(error: Error)

  function EntryAt(rs: seq<Region>, i: nat, j: nat): Entry
    requires Declares(rs, i, j)
  {
    Entry(Masked(At(rs, i, j)), rs[i].id, rs[i].jurisdiction)
  }

  predicate LexLeq(a: string, b: string)
  {
    a == [] || (b != [] && (a[0] < b[0] || (a[0] == b[0] && LexLeq(a[1..], b[1..]))))
  }

  lemma {:induction false} LexTotal(a: string, b: string)
    ensures LexLeq(a, b) || LexLeq(b, a)
  {
    if a != [] && b != [] && a[0] == b[0] { LexTotal(a[1..], b[1..]); }
  }

  lemma {:induction false} LexTransitive(a: string, b: string, c: string)
    requires LexLeq(a, b) && LexLeq(b, c)
    ensures LexLeq(a, c)
  {
    if a != [] && a[0] == b[0] == c[0] { LexTransitive(a[1..], b[1..], c[1..]); }
  }

  // Longest prefix first, then by region id
  predicate Precedes(a: Entry, b: Entry)
  {
    a.prefix.bits > b.prefix.bits || (a.prefix.bits == b.prefix.bits && LexLeq(a.regionID, b.regionID))
  }

  predicate Ordered(es: seq<Entry>) { forall x, y :: 0 <= x < y < |es| ==> Precedes(es[x], es[y]) }

  // Places e after every entry that precedes it.
  method InsertEntry(es: seq<Entry>, e: Entry) returns (out: seq<Entry>)
    requires Ordered(es)
    ensures Ordered(out) && multiset(out) == multiset(es) + multiset{e}
  {
    hide LexLeq;
    var n := |es|;
    while n > 0 && !Precedes(es[n - 1], e)
      invariant 0 <= n <= |es|
      invariant forall y :: n <= y < |es| ==> Precedes(e, es[y])
    {
      LexTotal(es[n - 1].regionID, e.regionID);
      n := n - 1;
    }
    forall x | 0 <= x < n ensures Precedes(es[x], e) {
      if x < n - 1 && es[x].prefix.bits == es[n - 1].prefix.bits == e.prefix.bits {
        LexTransitive(es[x].regionID, es[n - 1].regionID, e.regionID);
      }
    }
    out := es[..n] + [e] + es[n..];
    assert es == es[..n] + es[n..];
  }

  /** The stable sort of the entries: ordered, and the same entries. */
  method SortEntries(es: seq<Entry>) returns (out: seq<Entry>)
    ensures Ordered(out) && multiset(out) == multiset(es)
  {
    hide Precedes;
    out := [];
    var n := 0;
    while n < |es|
      invariant 0 <= n <= |es| && Ordered(out) && multiset(out) == multiset(es[..n])
    {
      out := InsertEntry(out, es[n]);
      assert es[..n + 1] == es[..n] + [es[n]];
      n := n + 1;
    }
    assert es[..n] == es;
  }

  // Cells before (i, j)
  predicate Seen(rs: seq<Region>, i: nat, j: nat, k: nat, l: nat)
  {
    Cell(rs, k, l) && (k < i || (k == i && l < j))
  }

  ghost predicate Holds(rs: seq<Region>, i: nat, j: nat, e: Entry)
  {
    exists k: nat, l: nat :: Seen(rs, i, j, k, l) && Declares(rs, k, l) && EntryAt(rs, k, l) == e
  }

  // Entries and claimed prefixes are those of the cells before (i, j), all distinct.
  ghost predicate Indexed(rs: seq<Region>, i: nat, j: nat, entries: seq<Entry>, seen: map<Prefix, string>)
  {
    && (forall k: nat, l: nat :: Seen(rs, i, j, k, l) ==>
          Declares(rs, k, l) && EntryAt(rs, k, l) in entries && Masked(At(rs, k, l)) in seen)
    && (forall e {:trigger e in entries} :: e in entries ==> Holds(rs, i, j, e) && e.prefix in seen)
    && (forall p {:trigger p in seen} :: p in seen ==> exists e :: e in entries && e.prefix == p)
    && (forall k: nat, l: nat, x: nat, y: nat {:trigger Seen(rs, i, j, k, l), Seen(rs, i, j, x, y)} ::
          Seen(rs, i, j, k, l) && Seen(rs, i, j, x, y) && Masked(At(rs, k, l)) == Masked(At(rs, x, y)) ==>
            k == x && l == y)
  }

  lemma IndexedGrows(rs: seq<Region>, i: nat, j: nat, entries: seq<Entry>, seen: map<Prefix, string>)
    requires Indexed(rs, i, j, entries, seen) && Declares(rs, i, j) && Masked(At(rs, i, j)) !in seen
    ensures Indexed(rs, i, j + 1, entries + [EntryAt(rs, i, j)], seen[Masked(At(rs, i, j)) := rs[i].id])
  {
    hide Masked, PrefixOk, Pow2;
    var next, new' := j + 1, EntryAt(rs, i, j);
    var es, sn := entries + [new'], seen[Masked(At(rs, i, j)) := rs[i].id];
    forall k: nat, l: nat | Seen(rs, i, next, k, l)
      ensures Declares(rs, k, l) && EntryAt(rs, k, l) in es && Masked(At(rs, k, l)) in sn
    {
      assert (k, l) == (i, j) || Seen(rs, i, j, k, l);
    }
    forall e | e in es ensures Holds(rs, i, next, e) && e.prefix in sn {
      if e in entries {
        assert Holds(rs, i, j, e);
        var k: nat, l: nat :| Seen(rs, i, j, k, l) && Declares(rs, k, l) && EntryAt(rs, k, l) == e;
        assert Seen(rs, i, next, k, l);
      } else {
        assert Seen(rs, i, next, i, j);
      }
    }
    forall p | p in sn ensures exists e :: e in es && e.prefix == p {
      if p in seen {
        var e :| e in entries && e.prefix == p;
        assert e in es;
      } else {
        assert new' in es;
      }
    }
    forall k: nat, l: nat, x: nat, y: nat
      | Seen(rs, i, next, k, l) && Seen(rs, i, next, x, y) && Masked(At(rs, k, l)) == Masked(At(rs, x, y))
      ensures k == x && l == y
    {
      assert (k, l) == (i, j) || Seen(rs, i, j, k, l);
      assert (x, y) == (i, j) || Seen(rs, i, j, x, y);
    }
  }

  lemma NextRegion(rs: seq<Region>, i: nat, entries: seq<Entry>, seen: map<Prefix, string>)
    requires i < |rs| && Indexed(rs, i, |rs[i].cidrs|, entries, seen)
    ensures Indexed(rs, i + 1, 0, entries, seen)
  {
    var n := |rs[i].cidrs|;
    var next := i + 1;
    forall k: nat, l: nat ensures Seen(rs, next, 0, k, l) == Seen(rs, i, n, k, l) {}
    forall e | e in entries ensures Holds(rs, next, 0, e) {
      assert Holds(rs, i, n, e);
      var k: nat, l: nat :| Seen(rs, i, n, k, l) && Declares(rs, k, l) && EntryAt(rs, k, l) == e;
      assert Seen(rs, next, 0, k, l);
    }
  }

  // A prefix claimed before is claimed by another cell, so the configuration is not good.
  lemma ClaimedTwice(rs: seq<Region>, i: nat, j: nat, entries: seq<Entry>, seen: map<Prefix, string>)
    requires Indexed(rs, i, j, entries, seen) && Declares(rs, i, j) && Masked(At(rs, i, j)) in seen
    ensures !Good(rs)
  {
    var e :| e in entries && e.prefix == Masked(At(rs, i, j));
    assert Holds(rs, i, j, e);
    var k: nat, l: nat :| Seen(rs, i, j, k, l) && Declares(rs, k, l) && EntryAt(rs, k, l) == e;
  }

  // The inner loop: one region's CIDRs
  method AddCIDRs(rs: seq<Region>, i: nat, entries: seq<Entry>, seen: map<Prefix, string>)
    returns (error: Option<Error>, es: seq<Entry>, sn: map<Prefix, string>)
    requires Parsed(rs) && i < |rs| && Indexed(rs, i, 0, entries, seen)
    ensures error.None? ==> Indexed(rs, i + 1, 0, es, sn)
    ensures error.Some? ==> !Good(rs)
  {
    hide Indexed, Masked;
    es, sn := entries, seen;
    var j := 0;
    while j < |rs[i].cidrs|
      invariant 0 <= j <= |rs[i].cidrs| && Indexed(rs, i, j, es, sn)
    {
      var cidr := rs[i].cidrs[j];
      if cidr.None? {
        assert Cell(rs, i, j) && !Declares(rs, i, j);
        return Some(BadCIDR), es, sn;
      }
      assert Declares(rs, i, j);
      var masked := Masked(cidr.value);
      if masked in sn {
        ClaimedTwice(rs, i, j, es, sn);
        return Some(PrefixTwice), es, sn;
      }
      IndexedGrows(rs, i, j, es, sn);
      sn := sn[masked := rs[i].id];
      es := es + [Entry(masked, rs[i].id, rs[i].jurisdiction)];
      j := j + 1;
    }
    NextRegion(rs, i, es, sn);
    error := None;
  }

  // Regions before i, by id
  ghost predicate Registered(rs: seq<Region>, i: nat, regions: map<string, Region>)
  {
    && i <= |rs|
    && (forall k :: 0 <= k < i ==>
          rs[k].id != "" && |rs[k].cidrs| > 0 && rs[k].id in regions && regions[rs[k].id] == rs[k])
    && (forall id {:trigger id in regions} :: id in regions ==> exists k :: 0 <= k < i && rs[k].id == id)
    && (forall k, l :: 0 <= k < l < i ==> rs[k].id != rs[l].id)
  }

  // A table that indexes exactly the declared prefixes, longest first
  ghost predicate Built(t: Table, rs: seq<Region>)
  {
    && Good(rs) && Ordered(t.entries) && Registered(rs, |rs|, t.regions)
    && (forall i: nat, j: nat :: Declares(rs, i, j) ==> EntryAt(rs, i, j) in t.entries)
    && (forall e {:trigger e in t.entries} :: e in t.entries ==> Holds(rs, |rs|, 0, e))
  }

  lemma Complete(rs: seq<Region>, entries: seq<Entry>, seen: map<Prefix, string>, regions: map<string, Region>,
                 sorted: seq<Entry>)
    requires |rs| > 0 && Indexed(rs, |rs|, 0, entries, seen) && Registered(rs, |rs|, regions)
    requires Ordered(sorted) && multiset(sorted) == multiset(entries)
    ensures Built(Table(sorted, regions), rs)
  {
    hide Masked, Precedes;
    forall k: nat, l: nat | Cell(rs, k, l) ensures Seen(rs, |rs|, 0, k, l) && Declares(rs, k, l) {}
    forall e ensures e in sorted <==> e in entries {
      assert e in multiset(sorted) <==> e in multiset(entries);
    }
    forall i: nat, j: nat | Declares(rs, i, j) ensures EntryAt(rs, i, j) in sorted {
      assert Seen(rs, |rs|, 0, i, j);
    }
    forall i: nat, j: nat, k: nat, l: nat
      | Declares(rs, i, j) && Declares(rs, k, l) && Masked(At(rs, i, j)) == Masked(At(rs, k, l))
      ensures i == k && j == l
    {
      assert Seen(rs, |rs|, 0, i, j) && Seen(rs, |rs|, 0, k, l);
    }
  }

  /** Indexing succeeds exactly on a good configuration, and then indexes all of it. */
  method ParseEdgeRegionTable(rs: seq<Region>) returns (r: Result)
    requires Parsed(rs)
    ensures r.Ok? <==> Good(rs)
    ensures r.Ok? ==> Built(r.table, rs)
  {
    hide Indexed, Masked, Holds, Ordered;
    if |rs| == 0 { return Err(NoRegions); }
    var entries: seq<Entry> := [];
    var regions: map<string, Region> := map[];
    var seen: map<Prefix, string> := map[];
    EmptyIndex(rs);
    var i := 0;
    while i < |rs|
      invariant 0 <= i <= |rs| && Indexed(rs, i, 0, entries, seen) && Registered(rs, i, regions)
    {
      var region := rs[i];
      if region.id == "" { return Err(NoID); }
      if region.id in regions { return Err(RegionTwice); }
      if |region.cidrs| == 0 { return Err(NoCIDRs); }
      var error;
      error, entries, seen := AddCIDRs(rs, i, entries, seen);
      if error.Some? { return Err(error.value); }
      RegisterNext(rs, i, regions);
      regions := regions[region.id := region];
      i := i + 1;
    }
    var sorted := SortEntries(entries);
    Complete(rs, entries, seen, regions, sorted);
    r := Ok(Table(sorted, regions));
  }

  lemma EmptyIndex(rs: seq<Region>)
    ensures Indexed(rs, 0, 0, [], map[])
  {
  }

  lemma RegisterNext(rs: seq<Region>, i: nat, regions: map<string, Region>)
    requires i < |rs| && Registered(rs, i, regions)
    requires rs[i].id != "" && rs[i].id !in regions && |rs[i].cidrs| > 0
    ensures Registered(rs, i + 1, regions[rs[i].id := rs[i]])
  {
    var all, n := regions[rs[i].id := rs[i]], i + 1;
    forall id | id in all ensures exists k :: 0 <= k < n && rs[k].id == id {
      if id in regions {
        var k :| 0 <= k < i && rs[k].id == id;
        assert 0 <= k < n;
      } else {
        assert rs[i].id == id;
      }
    }
  }

  /**
   Returns the region of the longest declared prefix containing the unmapped address, and
   none exactly when no declared prefix contains it.
   */
  method Lookup(t: Table, ghost rs: seq<Region>, addr: Addr) returns (r: Option<Region>, ghost i: nat, ghost j: nat)
    requires Built(t, rs) && AddrOk(addr)
    ensures r.Some? <==> exists k: nat, l: nat :: Declares(rs, k, l) && InNetwork(At(rs, k, l), Unmap(addr))
    ensures r.Some? ==> LongestMatch(rs, Unmap(addr), i, j) && Denotes(addr, Unmap(addr))
    ensures r.Some? <==> exists k: nat, l: nat :: Declares(rs, k, l) && Contains(At(rs, k, l), Unmap(addr))
    ensures r.Some? ==> Wins(rs, Unmap(addr), i, j) && r.value == rs[i]
  {
    hide Masked, Contains, Unmap, InNetwork, PrefixOk, AddrOk, Denotes;
    i, j := 0, 0;
    UnmapMeans(addr);
    ByBits(rs, Unmap(addr));
    if addr.Invalid? {
      NothingContainsInvalid(rs, addr);
      return None, 0, 0;
    }
    var a := Unmap(addr);
    var n := 0;
    while n < |t.entries|
      invariant 0 <= n <= |t.entries|
      invariant forall x :: 0 <= x < n ==> PrefixOk(t.entries[x].prefix) && !Contains(t.entries[x].prefix, a)
    {
      var e := t.entries[n];
      assert e in t.entries && Holds(rs, |rs|, 0, e);
      ghost var k: nat, l: nat :| Seen(rs, |rs|, 0, k, l) && Declares(rs, k, l) && EntryAt(rs, k, l) == e;
      MaskingKeepsContains(At(rs, k, l), a);
      if Contains(e.prefix, a) {
        FirstIsLongest(t, rs, a, n, k, l);
        i, j := k, l;
        assert LongestMatch(rs, a, i, j);
        return Some(t.regions[e.regionID]), i, j;
      }
      n := n + 1;
    }
    forall k: nat, l: nat | Declares(rs, k, l) ensures !Contains(At(rs, k, l), a) {
      MaskingKeepsContains(At(rs, k, l), a);
      assert EntryAt(rs, k, l) in t.entries;
    }
    return None, 0, 0;
  }

  // Wins, with containment as leading bits
  ghost predicate LongestMatch(rs: seq<Region>, a: Addr, i: nat, j: nat)
  {
    && Declares(rs, i, j) && InNetwork(At(rs, i, j), a)
    && forall k: nat, l: nat {:trigger Declares(rs, k, l)} ::
         Declares(rs, k, l) && InNetwork(At(rs, k, l), a) && (k, l) != (i, j) ==> At(rs, k, l).bits < At(rs, i, j).bits
  }

  lemma ByBits(rs: seq<Region>, a: Addr)
    requires AddrOk(a)
    ensures forall k: nat, l: nat {:trigger Declares(rs, k, l)} ::
              Declares(rs, k, l) ==> (Contains(At(rs, k, l), a) <==> InNetwork(At(rs, k, l), a))
  {
    forall k: nat, l: nat | Declares(rs, k, l) ensures Contains(At(rs, k, l), a) <==> InNetwork(At(rs, k, l), a) {
      ContainsByBits(At(rs, k, l), a);
    }
  }

  /** An IPv4-mapped address, zoned or not, gets what the IPv4 address gets. */
  method LookupMapped(t: Table, ghost rs: seq<Region>, v4: nat, zoned: bool)
    returns (a: Option<Region>, b: Option<Region>)
    requires Built(t, rs) && AddrOk(IP(V4, v4, false)) && AddrOk(IP(V6, 0xFFFF_0000_0000 + v4, zoned))
    ensures a == b
  {
    hide Masked, Contains, InNetwork, Built;
    MappedIsPlain(v4, zoned);
    ghost var i, j, k, l;
    a, i, j := Lookup(t, rs, IP(V4, v4, false));
    b, k, l := Lookup(t, rs, IP(V6, 0xFFFF_0000_0000 + v4, zoned));
    if a.Some? { OneWinner(rs, IP(V4, v4, false), i, j, k, l); }
  }

  lemma MappedIsPlain(v4: nat, zoned: bool)
    requires AddrOk(IP(V4, v4, false)) && AddrOk(IP(V6, 0xFFFF_0000_0000 + v4, zoned))
    ensures Unmap(IP(V6, 0xFFFF_0000_0000 + v4, zoned)) == IP(V4, v4, false) == Unmap(IP(V4, v4, false))
  {
    assert Pow2(10) == 1024;
    assert Pow2(20) == 1048576;
    assert Pow2(30) == 1073741824;
    assert Pow2(32) == 0x1_0000_0000;
  }

  lemma NothingContainsInvalid(rs: seq<Region>, addr: Addr)
    requires addr.Invalid?
    ensures forall k: nat, l: nat :: Declares(rs, k, l) ==> !Contains(At(rs, k, l), Unmap(addr))
  {
  }

  lemma FirstIsLongest(t: Table, rs: seq<Region>, a: Addr, n: nat, i: nat, j: nat)
    requires Built(t, rs) && n < |t.entries| && Declares(rs, i, j) && EntryAt(rs, i, j) == t.entries[n]
    requires Contains(At(rs, i, j), a)
    requires forall x :: 0 <= x < n ==> PrefixOk(t.entries[x].prefix) && !Contains(t.entries[x].prefix, a)
    ensures Wins(rs, a, i, j)
  {
    hide Masked, Contains;
    forall k: nat, l: nat | Declares(rs, k, l) && Contains(At(rs, k, l), a)
      ensures At(rs, k, l).bits <= At(rs, i, j).bits
    {
      MaskingKeepsContains(At(rs, k, l), a);
      assert EntryAt(rs, k, l) in t.entries;
      var x :| 0 <= x < |t.entries| && t.entries[x] == EntryAt(rs, k, l);
      if x > n { assert Precedes(t.entries[n], t.entries[x]); }
    }
    LongestIsUnique(rs, a, i, j);
  }

  lemma ReorderBack(rs: seq<Region>, qs: seq<Region>, sh: Shuffle) returns (inv: Shuffle)
    requires Reorders(rs, qs, sh)
    ensures Reorders(qs, rs, inv)
  {
    var inner := seq(|rs|, i requires 0 <= i < |rs| => (sh.inner[sh.back[i]].1, sh.inner[sh.back[i]].0));
    inv := Shuffle(sh.back, sh.to, inner);
    forall i | 0 <= i < |rs| ensures RegionReordered(qs[inv.to[i]], rs[i], inv.inner[i]) {
      assert RegionReordered(rs[sh.to[sh.back[i]]], qs[sh.back[i]], sh.inner[sh.back[i]]);
    }
  }

  /** Whether a configuration is indexable does not depend on the order of regions or CIDRs. */
  lemma GoodIsOrderFree(rs: seq<Region>, qs: seq<Region>, sh: Shuffle)
    requires Reorders(rs, qs, sh)
    ensures Good(rs) <==> Good(qs)
  {
    hide Good, Reorders;
    if Good(rs) {
      ReorderedIsGood(rs, qs, sh);
    } else if Good(qs) {
      var inv := ReorderBack(rs, qs, sh);
      ReorderedIsGood(qs, rs, inv);
    }
  }

  /** Both orders are accepted or both refused, and every address gets the same region id and jurisdiction. */
  method LookupBothWays(rs: seq<Region>, qs: seq<Region>, ghost sh: Shuffle, addr: Addr)
    returns (p: Result, q: Result, a: Option<Region>, b: Option<Region>)
    requires Parsed(rs) && Parsed(qs) && Reorders(rs, qs, sh) && AddrOk(addr)
    ensures p.Ok? <==> q.Ok?
    ensures a.Some? <==> b.Some?
    ensures a.Some? ==> a.value.id == b.value.id && a.value.jurisdiction == b.value.jurisdiction
  {
    hide Parsed, Good, Contains, Ordered, Registered, Holds, Masked;
    GoodIsOrderFree(rs, qs, sh);
    p := ParseEdgeRegionTable(rs);
    q := ParseEdgeRegionTable(qs);
    if p.Err? { return p, q, None, None; }
    ghost var i, j, k, l;
    a, i, j := Lookup(p.table, rs, addr);
    b, k, l := Lookup(q.table, qs, addr);
    if a.Some? {
      ghost var x, y := WinnerSurvivesReordering(rs, qs, sh, Unmap(addr), i, j);
      assert Declares(qs, x, y) && Contains(At(qs, x, y), Unmap(addr));
      OneWinner(qs, Unmap(addr), x, y, k, l);
    } else if b.Some? {
      ghost var inv := ReorderBack(rs, qs, sh);
      ghost var x, y := WinnerSurvivesReordering(qs, rs, inv, Unmap(addr), k, l);
      assert false;
    }
  }

  lemma OneWinner(rs: seq<Region>, a: Addr, i: nat, j: nat, k: nat, l: nat)
    requires Wins(rs, a, i, j) && Wins(rs, a, k, l)
    ensures i == k && j == l
  {
  }
}
