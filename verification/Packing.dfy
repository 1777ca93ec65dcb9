/** The fixed-width packing of lease references, and the statement's cutting of it into halves. */
module Packing {

  const ID_WIDTH := 64
  const EPOCH_WIDTH := 19
  const RECORD_WIDTH := 83

  const MIN_INT64 := -0x8000_0000_0000_0000
  const MAX_INT64 := 0x7FFF_FFFF_FFFF_FFFF

  /** A lease at the epoch its holder presents. */
  datatype Ref = Ref(id: string, epoch: int)

  predicate IsInt64(e: int) { MIN_INT64 <= e <= MAX_INT64 }

  predicate Plain(c: char) { ' ' < c <= '~' }

  predicate AllPlain(s: string) { forall i :: 0 <= i < |s| ==> Plain(s[i]) }

  /** References the statement can carry: any other is left to the one-lease renewal. */
  predicate Packable(r: Ref)
  {
    r.id != "" && |r.id| <= ID_WIDTH && r.epoch >= 0 && AllPlain(r.id)
  }

  function Spaces(n: nat): (s: string)
    ensures |s| == n && forall i :: 0 <= i < n ==> s[i] == ' '
  {
    seq(n, i => ' ')
  }

  function DigitOf(d: nat): (c: char)
    requires d < 10
    ensures '0' <= c <= '9'
  {
    '0' + d as char
  }

  /** The last `width` decimal digits of a number, zero-padded. */
  function Digits(n: nat, width: nat): (s: string)
    ensures |s| == width
    ensures forall i :: 0 <= i < |s| ==> '0' <= s[i] <= '9'
  {
    if width == 0 then "" else Digits(n / 10, width - 1) + [DigitOf(n % 10)]
  }

  function Power(width: nat): (p: nat)
    ensures p > 0
  {
    if width == 0 then 1 else 10 * Power(width - 1)
  }

  /** The id space-padded, then the epoch zero-padded. */
  function Record(r: Ref): (s: string)
    requires Packable(r)
    ensures |s| == RECORD_WIDTH
  {
    r.id + Spaces(ID_WIDTH - |r.id|) + Digits(r.epoch, EPOCH_WIDTH)
  }

  /** The references of a list that are packed, in its order. */
  function Kept(refs: seq<Ref>): (out: seq<Ref>)
    ensures forall i :: 0 <= i < |out| ==> Packable(out[i]) && out[i] in refs
  {
    if refs == [] then []
    else Kept(refs[..|refs| - 1]) + if Packable(refs[|refs| - 1]) then [refs[|refs| - 1]] else []
  }

  predicate AllPackable(refs: seq<Ref>) { forall i :: 0 <= i < |refs| ==> Packable(refs[i]) }

  function Packed(refs: seq<Ref>): (s: string)
    requires AllPackable(refs)
    ensures |s| == RECORD_WIDTH * |refs|
  {
    if refs == [] then "" else Packed(refs[..|refs| - 1]) + Record(refs[|refs| - 1])
  }

  // ---- Reading it back ----

  function TrimRight(s: string): string
  {
    if s != "" && s[|s| - 1] == ' ' then TrimRight(s[..|s| - 1]) else s
  }

  function Number(s: string): int
  {
    if s == "" then 0 else 10 * Number(s[..|s| - 1]) + (s[|s| - 1] as int - '0' as int)
  }

  /** Reads one record. */
  function Decode(rec: string): Ref
    requires |rec| == RECORD_WIDTH
  {
    Ref(TrimRight(rec[..ID_WIDTH]), Number(rec[ID_WIDTH..]))
  }

  /** Cuts a string of whole records in halves until every part is one record. */
  function Halves(s: string): seq<string>
    requires |s| % RECORD_WIDTH == 0
    decreases |s|
  {
    if |s| < 2 * RECORD_WIDTH then [s]
    else
      var cut := |s| / (2 * RECORD_WIDTH) * RECORD_WIDTH;
      CutIsInside(s);
      Halves(s[..cut]) + Halves(s[cut..])
  }

  lemma CutIsInside(s: string)
    requires |s| % RECORD_WIDTH == 0 && |s| >= 2 * RECORD_WIDTH
    ensures
      var cut := |s| / (2 * RECORD_WIDTH) * RECORD_WIDTH;
      0 < cut < |s| && cut % RECORD_WIDTH == 0 && (|s| - cut) % RECORD_WIDTH == 0
  {
    var n := |s| / RECORD_WIDTH;
    var cut := |s| / (2 * RECORD_WIDTH) * RECORD_WIDTH;
    assert |s| == n * RECORD_WIDTH;
    assert |s| / (2 * RECORD_WIDTH) == n / 2;
    assert |s| - cut == (n - n / 2) * RECORD_WIDTH;
  }

  /** The references a statement reads out of its argument: none at all unless it is whole records. */
  function Unpack(s: string): seq<Ref>
  {
    if |s| < RECORD_WIDTH || |s| % RECORD_WIDTH != 0 then [] else DecodeAll(Halves(s))
  }

  function DecodeAll(parts: seq<string>): seq<Ref>
  {
    if parts == [] then []
    else DecodeAll(parts[..|parts| - 1]) +
         if |parts[|parts| - 1]| == RECORD_WIDTH then [Decode(parts[|parts| - 1])] else []
  }

  // ---- The round trip ----

  lemma {:induction false} DigitsReadBack(n: nat, width: nat)
    requires n < Power(width)
    ensures Number(Digits(n, width)) == n
  {
    if width > 0 {
      DigitsReadBack(n / 10, width - 1);
      var s := Digits(n, width);
      assert s[..|s| - 1] == Digits(n / 10, width - 1);
      assert DigitOf(n % 10) as int - '0' as int == n % 10;
    }
  }

  lemma {:induction false} TrimUndoesPadding(id: string, n: nat)
    requires id == "" || id[|id| - 1] != ' '
    ensures TrimRight(id + Spaces(n)) == id
  {
    var s := id + Spaces(n);
    if n > 0 {
      assert s[..|s| - 1] == id + Spaces(n - 1);
      TrimUndoesPadding(id, n - 1);
    }
  }

  /** One record reads back as the reference it was made from. */
  lemma RecordReadsBack(r: Ref)
    requires Packable(r) && r.epoch <= MAX_INT64
    ensures Decode(Record(r)) == r
  {
    var s := Record(r);
    assert s[..ID_WIDTH] == r.id + Spaces(ID_WIDTH - |r.id|);
    assert s[ID_WIDTH..] == Digits(r.epoch, EPOCH_WIDTH);
    assert Plain(r.id[|r.id| - 1]);
    TrimUndoesPadding(r.id, ID_WIDTH - |r.id|);
    NineteenDigits();
    DigitsReadBack(r.epoch, EPOCH_WIDTH);
  }

  lemma NineteenDigits()
    ensures Power(EPOCH_WIDTH) > MAX_INT64
  {
    assert Power(5) == 100_000;
    assert Power(10) == 100_000 * Power(5);
    assert Power(15) == 100_000 * Power(10);
    assert Power(19) == 10_000 * Power(15);
  }

  lemma {:induction false} PackSplits(a: seq<Ref>, b: seq<Ref>)
    requires AllPackable(a) && AllPackable(b)
    ensures AllPackable(a + b) && Packed(a + b) == Packed(a) + Packed(b)
  {
    if b == [] {
      assert a + b == a;
    } else {
      var front := b[..|b| - 1];
      assert (a + b)[..|a + b| - 1] == a + front;
      PackSplits(a, front);
    }
  }

  lemma {:induction false} DecodeAppends(a: seq<string>, b: seq<string>)
    ensures DecodeAll(a + b) == DecodeAll(a) + DecodeAll(b)
  {
    if b == [] {
      assert a + b == a;
    } else {
      var front := b[..|b| - 1];
      assert (a + b)[..|a + b| - 1] == a + front;
      DecodeAppends(a, front);
    }
  }

  lemma PackOne(r: Ref)
    requires Packable(r)
    ensures Packed([r]) == Record(r)
  {
    assert [r][..0] == [];
    assert Packed([]) == "";
  }

  lemma {:induction false} HalvesReadBack(refs: seq<Ref>)
    requires AllPackable(refs) && |refs| > 0 && forall i :: 0 <= i < |refs| ==> refs[i].epoch <= MAX_INT64
    ensures DecodeAll(Halves(Packed(refs))) == refs
    decreases |refs|
  {
    hide Packed, Record, Decode, Packable, Halves, DecodeAll;
    var s := Packed(refs);
    if |refs| == 1 {
      assert refs == [refs[0]];
      PackOne(refs[0]);
      RecordReadsBack(refs[0]);
      DecodeOne(s);
    } else {
      var half := |refs| / 2;
      var a, b := refs[..half], refs[half..];
      assert refs == a + b;
      PackSplits(a, b);
      HalvesOfTwo(Packed(a), Packed(b), half, |refs| - half);
      HalvesReadBack(a);
      HalvesReadBack(b);
      DecodeAppends(Halves(Packed(a)), Halves(Packed(b)));
    }
  }

  lemma HalvesOfTwo(a: string, b: string, m: nat, n: nat)
    requires |a| == RECORD_WIDTH * m && |b| == RECORD_WIDTH * n && 0 < m <= n <= m + 1
    ensures |a| % RECORD_WIDTH == 0 && |b| % RECORD_WIDTH == 0 && |a + b| % RECORD_WIDTH == 0
    ensures Halves(a + b) == Halves(a) + Halves(b)
  {
    hide Halves;
    var s := a + b;
    assert |s| == RECORD_WIDTH * (m + n);
    CutIsInside(s);
    assert |s| / (2 * RECORD_WIDTH) == m;
    assert s[..|a|] == a && s[|a|..] == b;
    HalvesStep(s, |a|);
  }

  lemma HalvesStep(s: string, cut: nat)
    requires |s| % RECORD_WIDTH == 0 && |s| >= 2 * RECORD_WIDTH && cut == |s| / (2 * RECORD_WIDTH) * RECORD_WIDTH
    requires cut <= |s| && cut % RECORD_WIDTH == 0 && (|s| - cut) % RECORD_WIDTH == 0
    ensures Halves(s) == Halves(s[..cut]) + Halves(s[cut..])
  {
  }

  lemma DecodeOne(s: string)
    requires |s| == RECORD_WIDTH
    ensures DecodeAll(Halves(s)) == [Decode(s)]
  {
    assert [s][..0] == [];
  }

  /** The packing of accepted references is exactly reversible, duplicates and order included. */
  lemma PackingReadsBack(refs: seq<Ref>)
    requires forall i :: 0 <= i < |refs| ==> IsInt64(refs[i].epoch)
    ensures Unpack(Packed(Kept(refs))) == Kept(refs)
  {
    hide Packed, Halves, Kept, Packable, DecodeAll, Power;
    var kept := Kept(refs);
    assert |Packed(kept)| == RECORD_WIDTH * |kept|;
    if kept != [] {
      forall i | 0 <= i < |kept| ensures kept[i].epoch <= MAX_INT64 {
        assert kept[i] in refs;
      }
      HalvesReadBack(kept);
    }
  }
}
