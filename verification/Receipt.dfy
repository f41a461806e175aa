/** The canonical receipt encoding: length-prefixed fields, then the fixed-width ones. */
module Receipt {
  import opened Common
  import opened Bytes

  // Text fields are their bytes.
  datatype Receipt = Receipt(
    jobID: seq<byte>,
    tenantID: seq<byte>,
    unitID: seq<byte>,
    workerID: seq<byte>,
    statusCode: nat,
    resultHash: seq<byte>,
    startedUnixMS: nat,
    completedUnixMS: nat)

  predicate Fits(r: Receipt)
  {
    && |r.jobID| < U64 && |r.tenantID| < U64 && |r.unitID| < U64 && |r.workerID| < U64 && |r.resultHash| < U64
    && r.statusCode < U32 && r.startedUnixMS < U64 && r.completedUnixMS < U64
  }

  // The ASCII bytes of "ovrt.resultauth.v1"
  function DomainPrefix(): seq<byte>
  {
    [111, 118, 114, 116, 46, 114, 101, 115, 117, 108, 116, 97, 117, 116, 104, 46, 118, 49]
  }

  function Prefixed(field: seq<byte>): seq<byte> { BE(|field|, 8) + field }

  function Fixed(r: Receipt): (s: seq<byte>)
    ensures |s| == 20
  {
    BE(r.statusCode, 4) + BE(r.startedUnixMS, 8) + BE(r.completedUnixMS, 8)
  }

  function Canonical(r: Receipt): seq<byte>
  {
    Prefixed(DomainPrefix()) + Prefixed(r.jobID) + Prefixed(r.tenantID) + Prefixed(r.unitID)
    + Prefixed(r.workerID) + Prefixed(r.resultHash) + Fixed(r)
  }

  class Writer {
    var written: seq<byte>

    constructor ()
      ensures written == []
    {
      written := [];
    }

    method Write(bytes: seq<byte>)
      modifies this
      ensures written == old(written) + bytes
    {
      written := written + bytes;
    }

    method WriteLengthPrefixed(field: seq<byte>)
      modifies this
      ensures written == old(written) + Prefixed(field)
    {
      Write(BE(|field|, 8));
      Write(field);
    }

    /** Appends exactly the canonical bytes, whatever was written before. */
    method WriteCanonical(r: Receipt)
      modifies this
      ensures written == old(written) + Canonical(r)
    {
      hide Prefixed, Fixed;
      WriteLengthPrefixed(DomainPrefix());
      WriteLengthPrefixed(r.jobID);
      WriteLengthPrefixed(r.tenantID);
      WriteLengthPrefixed(r.unitID);
      WriteLengthPrefixed(r.workerID);
      WriteLengthPrefixed(r.resultHash);
      Write(Fixed(r));
    }
  }

  lemma SplitAt(a: seq<byte>, x: seq<byte>, b: seq<byte>, y: seq<byte>)
    requires a + x == b + y && |a| == |b|
    ensures a == b && x == y
  {
    assert (a + x)[..|a|] == a && (b + y)[..|a|] == b;
    assert (a + x)[|a|..] == x && (b + y)[|a|..] == y;
  }

  /** A length-prefixed field ends where its prefix says, whatever follows it. */
  lemma PrefixedSplits(f: seq<byte>, x: seq<byte>, g: seq<byte>, y: seq<byte>)
    requires |f| < U64 && |g| < U64 && Prefixed(f) + x == Prefixed(g) + y
    ensures f == g && x == y
  {
    hide BE, FromBE;
    Widths();
    assert Prefixed(f) + x == BE(|f|, 8) + (f + x) && Prefixed(g) + y == BE(|g|, 8) + (g + y);
    SplitAt(BE(|f|, 8), f + x, BE(|g|, 8), g + y);
    BERoundTrip(|f|, 8);
    BERoundTrip(|g|, 8);
    SplitAt(f, x, g, y);
  }

  lemma FixedSplits(a: Receipt, x: seq<byte>, b: Receipt, y: seq<byte>)
    requires Fits(a) && Fits(b) && Fixed(a) + x == Fixed(b) + y
    ensures a.statusCode == b.statusCode && a.startedUnixMS == b.startedUnixMS
    ensures a.completedUnixMS == b.completedUnixMS && x == y
  {
    hide BE, FromBE;
    Widths();
    SplitAt(Fixed(a), x, Fixed(b), y);
    SplitAt(BE(a.statusCode, 4) + BE(a.startedUnixMS, 8), BE(a.completedUnixMS, 8),
            BE(b.statusCode, 4) + BE(b.startedUnixMS, 8), BE(b.completedUnixMS, 8));
    SplitAt(BE(a.statusCode, 4), BE(a.startedUnixMS, 8), BE(b.statusCode, 4), BE(b.startedUnixMS, 8));
    BERoundTrip(a.statusCode, 4);
    BERoundTrip(b.statusCode, 4);
    BERoundTrip(a.startedUnixMS, 8);
    BERoundTrip(b.startedUnixMS, 8);
    BERoundTrip(a.completedUnixMS, 8);
    BERoundTrip(b.completedUnixMS, 8);
  }

  function From(r: Receipt, x: seq<byte>): seq<byte>
  {
    Prefixed(DomainPrefix())
    + (Prefixed(r.jobID) + (Prefixed(r.tenantID) + (Prefixed(r.unitID)
    + (Prefixed(r.workerID) + (Prefixed(r.resultHash) + (Fixed(r) + x))))))
  }

  lemma Reassociate(r: Receipt, x: seq<byte>)
    ensures Canonical(r) + x == From(r, x)
  {
    hide Prefixed, Fixed;
  }

  /**
   Two receipts whose canonical bytes begin one stream are equal in all eight fields and
   end at the same place. So the encoding is injective, and none is a prefix of another.
   */
  lemma CanonicalIsInjective(a: Receipt, x: seq<byte>, b: Receipt, y: seq<byte>)
    requires Fits(a) && Fits(b) && Canonical(a) + x == Canonical(b) + y
    ensures a == b && x == y
  {
    hide Prefixed, Fixed, Canonical, DomainPrefix;
    Reassociate(a, x);
    Reassociate(b, y);
    var a6, b6 := Fixed(a) + x, Fixed(b) + y;
    var a5, b5 := Prefixed(a.resultHash) + a6, Prefixed(b.resultHash) + b6;
    var a4, b4 := Prefixed(a.workerID) + a5, Prefixed(b.workerID) + b5;
    var a3, b3 := Prefixed(a.unitID) + a4, Prefixed(b.unitID) + b4;
    var a2, b2 := Prefixed(a.tenantID) + a3, Prefixed(b.tenantID) + b3;
    var a1, b1 := Prefixed(a.jobID) + a2, Prefixed(b.jobID) + b2;
    SplitAt(Prefixed(DomainPrefix()), a1, Prefixed(DomainPrefix()), b1);
    PrefixedSplits(a.jobID, a2, b.jobID, b2);
    PrefixedSplits(a.tenantID, a3, b.tenantID, b3);
    PrefixedSplits(a.unitID, a4, b.unitID, b4);
    PrefixedSplits(a.workerID, a5, b.workerID, b5);
    PrefixedSplits(a.resultHash, a6, b.resultHash, b6);
    FixedSplits(a, x, b, y);
  }

  lemma Slices(a: seq<byte>, f: seq<byte>, rest: seq<byte>)
    requires |f| < U64
    ensures var s := a + (Prefixed(f) + rest);
            && |Prefixed(f)| == 8 + |f| && s[|a| + 8..|a| + 8 + |f|] == f && FromBE(s[|a|..|a| + 8]) == |f|
  {
    hide BE, FromBE;
    Widths();
    BERoundTrip(|f|, 8);
    var s := a + (Prefixed(f) + rest);
    assert s[|a|..|a| + 8] == BE(|f|, 8);
    assert s[|a| + 8..|a| + 8 + |f|] == f;
  }

  lemma Regroup(a: seq<byte>, b: seq<byte>, c: seq<byte>)
    ensures a + b + c == a + (b + c)
  {
  }

  lemma FixedRead(r: Receipt, a: seq<byte>)
    requires Fits(r)
    ensures var s, e := a + Fixed(r), |a|;
            && FromBE(s[e..e + 4]) == r.statusCode && FromBE(s[e + 4..e + 12]) == r.startedUnixMS
            && FromBE(s[e + 12..e + 20]) == r.completedUnixMS
  {
    hide BE, FromBE;
    Widths();
    BERoundTrip(r.statusCode, 4);
    BERoundTrip(r.startedUnixMS, 8);
    BERoundTrip(r.completedUnixMS, 8);
    var s, e := a + Fixed(r), |a|;
    assert s[e..e + 4] == BE(r.statusCode, 4);
    assert s[e + 4..e + 12] == BE(r.startedUnixMS, 8);
    assert s[e + 12..e + 20] == BE(r.completedUnixMS, 8);
  }

  /**
   The canonical bytes, read by position: the domain text first, then job, tenant, unit, worker
   and result hash, each after its eight-byte length, then status and the two times.
   */
  lemma FieldsInOrder(r: Receipt)
    requires Fits(r)
    ensures var s, d := Canonical(r), DomainPrefix();
            var j := 26;
            var t := j + 8 + |r.jobID|;
            var u := t + 8 + |r.tenantID|;
            var w := u + 8 + |r.unitID|;
            var h := w + 8 + |r.workerID|;
            var e := h + 8 + |r.resultHash|;
            && |s| == e + 20 && FromBE(s[0..8]) == 18 && s[8..26] == d
            && FromBE(s[j..j + 8]) == |r.jobID| && s[j + 8..t] == r.jobID
            && FromBE(s[t..t + 8]) == |r.tenantID| && s[t + 8..u] == r.tenantID
            && FromBE(s[u..u + 8]) == |r.unitID| && s[u + 8..w] == r.unitID
            && FromBE(s[w..w + 8]) == |r.workerID| && s[w + 8..h] == r.workerID
            && FromBE(s[h..h + 8]) == |r.resultHash| && s[h + 8..e] == r.resultHash
            && FromBE(s[e..e + 4]) == r.statusCode && FromBE(s[e + 4..e + 12]) == r.startedUnixMS
            && FromBE(s[e + 12..e + 20]) == r.completedUnixMS
  {
    hide Fixed, Prefixed, FromBE;
    var d := DomainPrefix();
    var a1 := Prefixed(d);
    var a2 := a1 + Prefixed(r.jobID);
    var a3 := a2 + Prefixed(r.tenantID);
    var a4 := a3 + Prefixed(r.unitID);
    var a5 := a4 + Prefixed(r.workerID);
    var a6 := a5 + Prefixed(r.resultHash);
    var x5 := Prefixed(r.resultHash) + Fixed(r);
    var x4 := Prefixed(r.workerID) + x5;
    var x3 := Prefixed(r.unitID) + x4;
    var x2 := Prefixed(r.tenantID) + x3;
    var x1 := Prefixed(r.jobID) + x2;
    Regroup(a5, Prefixed(r.resultHash), Fixed(r));
    Regroup(a4, Prefixed(r.workerID), x5);
    Regroup(a3, Prefixed(r.unitID), x4);
    Regroup(a2, Prefixed(r.tenantID), x3);
    Regroup(a1, Prefixed(r.jobID), x2);
    assert Canonical(r) == [] + (Prefixed(d) + x1);
    Slices([], d, x1);
    Slices(a1, r.jobID, x2);
    Slices(a2, r.tenantID, x3);
    Slices(a3, r.unitID, x4);
    Slices(a4, r.workerID, x5);
    Slices(a5, r.resultHash, Fixed(r));
    FixedRead(r, a6);
  }
}
