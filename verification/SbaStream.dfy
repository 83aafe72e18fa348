/**
 Streaming over the atomic system bus interface: autoincremented writes fill memory in order, and a
 read-on-address, read-on-data, autoincremented stream returns what is there.
 */
module SbaStream {
  import opened Bits
  import opened Bytes
  import opened DmCsrs
  import opened Sba
  import opened SbaAtomic

  // ----- words on the DMI

  /** The bytes of a word made of four bytes. */
  lemma WordRoundTrip(bs: seq<Byte>)
    requires |bs| == 4
    ensures WordBytes(BytesWord(bs)) == bs
  {
    assert Pow2(3) == 8 && Pow2(5) == 32 && Pow2(8) == 256;
    var d := BytesWord(bs);
    assert d[..8] == ToBits(bs[0], 8) && d[8..16] == ToBits(bs[1], 8);
    assert d[16..24] == ToBits(bs[2], 8) && d[24..] == ToBits(bs[3], 8);
    BitsOfNumber(bs[0], 8);
    BitsOfNumber(bs[1], 8);
    BitsOfNumber(bs[2], 8);
    BitsOfNumber(bs[3], 8);
  }

  // ----- writing

  /** The bus accepts the access. */
  predicate Good(w: nat, v: Verdict) { v.lands && !v.err && !v.other && |v.noise| == w / 8 }

  /** The requests that write one item of n bytes; eight bytes need the upper data register first. */
  function ItemWrite(n: nat, d: seq<Byte>, v: Verdict): seq<Entry>
    requires |d| == 8
  {
    (if n == 8 then [Entry(Request(Write, SBDATA1, BytesWord(d[4..])), None)] else [])
    + [Entry(Request(Write, SBDATA0, BytesWord(d[..4])), Some(v))]
  }

  predicate Items(w: nat, ds: seq<seq<Byte>>, vs: seq<Verdict>) {
    |ds| == |vs| && forall j :: 0 <= j < |ds| ==> |ds[j]| == 8 && Good(w, vs[j])
  }

  function WriteLog(w: nat, n: nat, ds: seq<seq<Byte>>, vs: seq<Verdict>): (log: seq<Entry>)
    requires Items(w, ds, vs)
    ensures LogFits(w, log)
  {
    var k := |ds| - 1;
    if k < 0 then [] else WriteLog(w, n, ds[..k], vs[..k]) + ItemWrite(n, ds[k], vs[k])
  }

  /** Ready for a stream of n-byte accesses: no error held, autoincrement on, address aligned. */
  predicate Streaming(w: nat, r: SbRegs, n: nat)
    requires IsWidth(w) && r.Valid()
  {
    r.error == 0 && r.autoIncrement && AccessSize(r.access) == n && Supported(w, r) && IsAligned(r)
  }

  /** n-byte items one after the other, wrapping at the end of the address space. */
  function StoreStream(w: nat, m: Memory, a: nat, ds: seq<seq<Byte>>, n: nat): Memory
    requires n <= 8 && forall j :: 0 <= j < |ds| ==> |ds[j]| == 8
  {
    var k := |ds| - 1;
    if k < 0 then m else StoreAt(StoreStream(w, m, a, ds[..k], n), Address(w, a, k, n), ds[k][..n])
  }

  /** The address of the k-th item. */
  function Address(w: nat, a: nat, k: nat, n: nat): nat {
    if k == 0 then a else (Address(w, a, k - 1, n) + n) % Addresses(w)
  }

  lemma Append(w: nat, a: Abs, log: seq<Entry>, x: Entry)
    requires IsWidth(w) && a.Valid(w) && LogFits(w, log) && LogFits(w, [x])
    ensures LogFits(w, log + [x]) && Replay(w, a, log + [x]) == Step(w, Replay(w, a, log), x)
  {
    assert LogFits(w, [x]) && [x][0] == x;
    assert (log + [x])[..|log|] == log;
  }

  /** Writing sbdata1 starts nothing. */
  lemma UpperStep(w: nat, a: Abs, bs: seq<Byte>)
    requires IsWidth(w) && a.Valid(w) && |bs| == 4
    ensures Step(w, a, Entry(Request(Write, SBDATA1, BytesWord(bs)), None))
            == a.(regs := a.regs.(data := a.regs.data[..4] + bs))
  {
    hide BytesWord, WordBytes;
    WordRoundTrip(bs);
  }

  /** Writing sbdata0 stores the low bytes of both registers. */
  lemma LowerStep(w: nat, a: Abs, n: nat, bs: seq<Byte>, v: Verdict)
    requires IsWidth(w) && a.Valid(w) && Streaming(w, a.regs, n) && |bs| == 4 && Good(w, v)
    ensures var b := Step(w, a, Entry(Request(Write, SBDATA0, BytesWord(bs)), Some(v)));
            && b.mem == StoreAt(a.mem, a.regs.addr, (bs + a.regs.data[4..])[..n])
            && b.regs.addr == (a.regs.addr + n) % Addresses(w) && Streaming(w, b.regs, n)
  {
    hide BytesWord, WordBytes, StoreAt, Noise;
    WordRoundTrip(bs);
    StaysAligned(w, a.regs, n);
  }

  lemma StaysAligned(w: nat, r: SbRegs, n: nat)
    requires IsWidth(w) && r.Valid() && Streaming(w, r, n) && r.addr < Addresses(w)
    ensures (r.addr + n) % Addresses(w) % n == 0
  {
    AtMostEight(w, r, n);
    NextAligned(w, r.addr, n);
  }

  /** One item. */
  lemma OneWrite(w: nat, a: Abs, log: seq<Entry>, n: nat, d: seq<Byte>, v: Verdict)
    requires IsWidth(w) && a.Valid(w) && LogFits(w, log) && |d| == 8 && Good(w, v)
    requires Streaming(w, Replay(w, a, log).regs, n)
    ensures LogFits(w, log + ItemWrite(n, d, v))
    ensures var b, c := Replay(w, a, log), Replay(w, a, log + ItemWrite(n, d, v));
            && c.mem == StoreAt(b.mem, b.regs.addr, d[..n]) && c.regs.addr == (b.regs.addr + n) % Addresses(w)
            && Streaming(w, c.regs, n)
  {
    hide BytesWord, WordBytes, StoreAt, Replay, Step, Streaming;
    var b := Replay(w, a, log);
    var upper, lower := Entry(Request(Write, SBDATA1, BytesWord(d[4..])), None),
                        Entry(Request(Write, SBDATA0, BytesWord(d[..4])), Some(v));
    if n == 8 {
      Append(w, a, log, upper);
      UpperStep(w, b, d[4..]);
      var b' := b.(regs := b.regs.(data := b.regs.data[..4] + d[4..]));
      SameStreaming(w, b.regs, b'.regs, n);
      LowerStep(w, b', n, d[..4], v);
      Append(w, a, log + [upper], lower);
      assert log + [upper] + [lower] == log + ItemWrite(n, d, v);
      assert d[..4] + b'.regs.data[4..] == d;
    } else {
      LowerStep(w, b, n, d[..4], v);
      Append(w, a, log, lower);
      assert [lower] == ItemWrite(n, d, v);
      NarrowItem(w, b.regs, d, n);
    }
  }

  lemma SameStreaming(w: nat, r: SbRegs, t: SbRegs, n: nat)
    requires IsWidth(w) && r.Valid() && Streaming(w, r, n) && t.Valid() && t == r.(data := t.data)
    ensures Streaming(w, t, n)
  {
  }

  lemma NarrowItem(w: nat, r: SbRegs, d: seq<Byte>, n: nat)
    requires IsWidth(w) && r.Valid() && Streaming(w, r, n) && n != 8 && |d| == 8
    ensures n <= 4 && (d[..4] + r.data[4..])[..n] == d[..n]
  {
  }

  /** A stream of autoincremented writes stores the items one after the other. */
  lemma {:induction false} WriteStream(w: nat, a: Abs, n: nat, ds: seq<seq<Byte>>, vs: seq<Verdict>)
    requires IsWidth(w) && a.Valid(w) && Streaming(w, a.regs, n) && Items(w, ds, vs)
    ensures var b := Replay(w, a, WriteLog(w, n, ds, vs));
            && n <= 8 && b.mem == StoreStream(w, a.mem, a.regs.addr, ds, n)
            && b.regs.addr == Address(w, a.regs.addr, |ds|, n) && Streaming(w, b.regs, n)
  {
    hide StoreAt, ItemWrite, Streaming, Replay, BytesWord, Good;
    AtMostEight(w, a.regs, n);
    var k := |ds| - 1;
    if k >= 0 {
      WriteStream(w, a, n, ds[..k], vs[..k]);
      OneWrite(w, a, WriteLog(w, n, ds[..k], vs[..k]), n, ds[k], vs[k]);
    } else {
      EmptyReplay(w, a);
    }
  }

  lemma AtMostEight(w: nat, r: SbRegs, n: nat)
    requires IsWidth(w) && r.Valid() && Streaming(w, r, n)
    ensures n in {1, 2, 4, 8}
  {
  }

  // ----- what the stream has stored

  predicate ItemSize(n: nat) { n == 1 || n == 2 || n == 4 || n == 8 }

  lemma NextAligned(w: nat, x: nat, n: nat)
    requires IsWidth(w) && ItemSize(n) && x < Addresses(w) && x % n == 0
    ensures x + n <= Addresses(w) && (x + n) % Addresses(w) % n == 0
    ensures (x + n) % Addresses(w) == if x + n == Addresses(w) then 0 else x + n
  {
    NextMultiple(x, n, Addresses(w));
    if x + n == Addresses(w) { assert (x + n) % Addresses(w) == 0; } else { assert (x + n) % Addresses(w) == x + n; }
  }

  lemma NextMultiple(x: nat, n: nat, m: nat)
    requires ItemSize(n) && x < m && x % n == 0 && m % 8 == 0
    ensures x + n <= m && (x + n) % n == 0
  {
    var q := m / 8;
    if n == 1 {
    } else if n == 2 {
      Multiples(x / 2, 4 * q, 2);
    } else if n == 4 {
      Multiples(x / 4, 2 * q, 4);
    } else {
      Multiples(x / 8, q, 8);
    }
  }

  lemma Multiples(q: nat, r: nat, n: nat)
    requires n == 2 || n == 4 || n == 8
    requires n * q < n * r
    ensures n * q + n <= n * r && (n * q + n) % n == 0
  {
    assert q < r;
    if n == 2 {
      assert (2 * (q + 1)) % 2 == 0;
    } else if n == 4 {
      assert (4 * (q + 1)) % 4 == 0;
    } else {
      assert (8 * (q + 1)) % 8 == 0;
    }
  }

  /** Items wrap around the end of the address space at most once, and do not overlap. */
  lemma {:induction false} AddressForm(w: nat, a: nat, k: nat, n: nat)
    requires IsWidth(w) && ItemSize(n) && a < Addresses(w) && a % n == 0 && n * (k + 1) <= Addresses(w)
    ensures Address(w, a, k, n) == (if a + n * k < Addresses(w) then a + n * k else a + n * k - Addresses(w))
    ensures Address(w, a, k, n) % n == 0 && Address(w, a, k, n) + n <= Addresses(w)
  {
    if k > 0 {
      assert n * k == n * (k - 1) + n && n * (k + 1) == n * k + n;
      AddressForm(w, a, k - 1, n);
      NextAligned(w, Address(w, a, k - 1, n), n);
    }
    NextAligned(w, Address(w, a, k, n), n);
  }

  lemma Apart(w: nat, a: nat, i: nat, k: nat, n: nat)
    requires IsWidth(w) && ItemSize(n) && a < Addresses(w) && a % n == 0 && i < k && n * (k + 1) <= Addresses(w)
    ensures Address(w, a, i, n) + n <= Address(w, a, k, n) || Address(w, a, k, n) + n <= Address(w, a, i, n)
  {
    assert n * (i + 1) <= n * k && n * (k + 1) == n * k + n && n * (i + 1) == n * i + n;
    AddressForm(w, a, i, n);
    AddressForm(w, a, k, n);
  }

  lemma {:induction false} StoredAt(m: Memory, a: nat, bs: seq<Byte>, x: nat)
    ensures At(StoreAt(m, a, bs), x) == if a <= x < a + |bs| then bs[x - a] else At(m, x)
    decreases |bs|
  {
    if bs != [] { StoredAt(m[a := bs[0]], a + 1, bs[1..], x); }
  }

  /** Every byte of every item is where the stream put it... */
  lemma {:induction false} StreamStored(w: nat, m: Memory, a: nat, ds: seq<seq<Byte>>, n: nat, i: nat, j: nat)
    requires IsWidth(w) && ItemSize(n) && a < Addresses(w) && a % n == 0 && n * |ds| <= Addresses(w)
    requires (forall k :: 0 <= k < |ds| ==> |ds[k]| == 8) && i < |ds| && j < n
    ensures At(StoreStream(w, m, a, ds, n), Address(w, a, i, n) + j) == ds[i][j]
  {
    var k := |ds| - 1;
    assert n * |ds| == n * k + n;
    StoredAt(StoreStream(w, m, a, ds[..k], n), Address(w, a, k, n), ds[k][..n], Address(w, a, i, n) + j);
    if i < k {
      Apart(w, a, i, k, n);
      StreamStored(w, m, a, ds[..k], n, i, j);
    }
  }

  /** ... and no other byte has changed. */
  lemma {:induction false} StreamSpares(w: nat, m: Memory, a: nat, ds: seq<seq<Byte>>, n: nat, x: nat)
    requires n <= 8 && (forall k :: 0 <= k < |ds| ==> |ds[k]| == 8)
    requires forall i :: 0 <= i < |ds| ==> !(Address(w, a, i, n) <= x < Address(w, a, i, n) + n)
    ensures At(StoreStream(w, m, a, ds, n), x) == At(m, x)
  {
    var k := |ds| - 1;
    if k >= 0 {
      StoredAt(StoreStream(w, m, a, ds[..k], n), Address(w, a, k, n), ds[k][..n], x);
      StreamSpares(w, m, a, ds[..k], n, x);
    }
  }

  // ----- reading

  function AddressWord(v: nat): Word
  {
    ToBits(v, 32)
  }

  /** Setting the address; with read-on-address this fetches the first item. */
  function SetAddress(w: nat, base: nat, v: Verdict): (log: seq<Entry>)
    requires Good(w, v)
    ensures LogFits(w, log)
  {
    (if w == 64 then [Entry(Request(Write, SBADDRESS1, AddressWord(base / TWO32)), None)] else [])
    + [Entry(Request(Write, SBADDRESS0, AddressWord(base % TWO32)), Some(v))]
  }

  /** Reading one item; with read-on-data this fetches the next. */
  function ItemRead(w: nat, n: nat, v: Verdict): (log: seq<Entry>)
    requires Good(w, v)
    ensures LogFits(w, log)
  {
    (if n == 8 then [Entry(Request(Read, SBDATA1, AddressWord(0)), None)] else [])
    + [Entry(Request(Read, SBDATA0, AddressWord(0)), Some(v))]
  }

  /** Setting the address and reading the first k items. */
  function ReadLog(w: nat, n: nat, base: nat, first: Verdict, vs: seq<Verdict>): (log: seq<Entry>)
    requires Good(w, first) && forall j :: 0 <= j < |vs| ==> Good(w, vs[j])
    ensures LogFits(w, log)
  {
    var k := |vs| - 1;
    if k < 0 then SetAddress(w, base, first) else ReadLog(w, n, base, first, vs[..k]) + ItemRead(w, n, vs[k])
  }

  /** The data registers hold the item at the previous address, and the next access goes to x. */
  ghost predicate Holding(w: nat, b: Abs, n: nat, item: nat, x: nat)
    requires IsWidth(w) && b.Valid(w)
  {
    && b.regs.readOnData && Streaming(w, b.regs, n) && n <= 8 && b.regs.addr == x
    && b.regs.data[..n] == LoadFrom(b.mem, item, n)
  }

  /** An access that reads. */
  lemma LoadStep(w: nat, a: Abs, n: nat, v: Verdict)
    requires IsWidth(w) && a.Valid(w) && Streaming(w, a.regs, n) && Good(w, v)
    ensures var b := Perform(w, a, Load, v);
            && b.mem == a.mem && b.regs.addr == (a.regs.addr + n) % Addresses(w) && Streaming(w, b.regs, n) && n <= 8
            && b.regs.readOnData == a.regs.readOnData && b.regs.data[..n] == LoadFrom(a.mem, a.regs.addr, n)
  {
    hide LoadFrom;
    StaysAligned(w, a.regs, n);
    WithinWord(w, a.mem, a.regs.addr, n);
  }

  lemma WithinWord(w: nat, m: Memory, a: nat, n: nat)
    requires IsWidth(w) && ItemSize(n) && n <= w / 8 && a % n == 0
    ensures RestOfWord(w, m, a)[..n] == LoadFrom(m, a, n)
  {
    assert n <= w / 8 - a % (w / 8);
  }

  lemma NumOfWord(v: nat)
    requires v < TWO32
    ensures Num(AddressWord(v)) == v
  {
    assert Pow2(8) == 0x100 && Pow2(16) == 0x1_0000 && Pow2(24) == 0x100_0000 && Pow2(32) == TWO32;
    BitsOfNumber(v, 32);
  }

  /** The address has been set: the first item is in the data registers. */
  lemma SetAddressHolds(w: nat, a: Abs, n: nat, base: nat, first: Verdict)
    requires IsWidth(w) && a.Valid(w) && Good(w, first) && base < Addresses(w)
    requires a.regs.readOnAddr && a.regs.readOnData && Streaming(w, a.regs.(addr := base), n)
    ensures var b := Replay(w, a, SetAddress(w, base, first));
            Holding(w, b, n, base, (base + n) % Addresses(w)) && b.mem == a.mem
  {
    hide LoadFrom, Replay, Step, Perform, AddressWord, Num;
    var upper := Entry(Request(Write, SBADDRESS1, AddressWord(base / TWO32)), None);
    var lower := Entry(Request(Write, SBADDRESS0, AddressWord(base % TWO32)), Some(first));
    assert Replay(w, a, []) == a by { EmptyReplay(w, a); }
    if w == 64 {
      var b := a.(regs := a.regs.(addr := WithHigh(a.regs.addr, base / TWO32)));
      UpperAddress(w, a, base);
      Append(w, a, [], upper);
      Append(w, a, [upper], lower);
      assert [] + [upper] == [upper];
      HalvesOf(a.regs.addr, base);
      LowerAddress(w, b, base, first);
      LoadStep(w, a.(regs := a.regs.(addr := base)), n, first);
    } else {
      LowerAddress(w, a, base, first);
      Append(w, a, [], lower);
      assert [] + [lower] == [lower] == SetAddress(w, base, first);
      LoadStep(w, a.(regs := a.regs.(addr := base)), n, first);
    }
  }

  lemma EmptyReplay(w: nat, a: Abs)
    requires IsWidth(w) && a.Valid(w)
    ensures Replay(w, a, []) == a
  {
  }

  lemma HalvesOf(a: nat, base: nat)
    requires a < TWO64 && base < TWO64
    ensures WithLow(WithHigh(a, base / TWO32), base % TWO32) == base
  {
    assert (base / TWO32 * TWO32 + a % TWO32) / TWO32 == base / TWO32;
  }

  lemma UpperAddress(w: nat, a: Abs, base: nat)
    requires w == 64 && a.Valid(w) && base < Addresses(w)
    ensures Step(w, a, Entry(Request(Write, SBADDRESS1, AddressWord(base / TWO32)), None))
            == a.(regs := a.regs.(addr := WithHigh(a.regs.addr, base / TWO32)))
  {
    hide AddressWord, Num, WithHigh;
    NumOfWord(base / TWO32);
  }

  lemma LowerAddress(w: nat, a: Abs, base: nat, v: Verdict)
    requires IsWidth(w) && a.Valid(w) && base < Addresses(w) && a.regs.error == 0 && a.regs.readOnAddr && Good(w, v)
    requires WithHalf(w, a.regs.addr, false, base % TWO32) == base
    ensures Step(w, a, Entry(Request(Write, SBADDRESS0, AddressWord(base % TWO32)), Some(v)))
            == Perform(w, a.(regs := a.regs.(addr := base)), Load, v)
  {
    hide AddressWord, Num, Perform, WithHalf;
    NumOfWord(base % TWO32);
  }

  lemma ReadStep(w: nat, a: Abs, n: nat, v: Verdict)
    requires IsWidth(w) && a.Valid(w) && Good(w, v) && a.regs.error == 0 && a.regs.readOnData
    ensures Step(w, a, Entry(Request(Read, SBDATA1, AddressWord(0)), None)) == a
    ensures Step(w, a, Entry(Request(Read, SBDATA0, AddressWord(0)), Some(v))) == Perform(w, a, Load, v)
  {
    hide AddressWord, Perform;
  }

  /** Reading the item held fetches the next one. */
  lemma OneRead(w: nat, a: Abs, log: seq<Entry>, n: nat, item: nat, x: nat, v: Verdict)
    requires IsWidth(w) && a.Valid(w) && LogFits(w, log) && Good(w, v)
    requires Holding(w, Replay(w, a, log), n, item, x)
    ensures LogFits(w, log + ItemRead(w, n, v))
    ensures var b, c := Replay(w, a, log), Replay(w, a, log + ItemRead(w, n, v));
            Holding(w, c, n, x, (x + n) % Addresses(w)) && c.mem == b.mem
  {
    hide LoadFrom, Replay, Step, Perform, AddressWord;
    var b := Replay(w, a, log);
    var upper, lower := Entry(Request(Read, SBDATA1, AddressWord(0)), None),
                        Entry(Request(Read, SBDATA0, AddressWord(0)), Some(v));
    ReadStep(w, b, n, v);
    LoadStep(w, b, n, v);
    if n == 8 {
      Append(w, a, log, upper);
      Append(w, a, log + [upper], lower);
      assert log + [upper] + [lower] == log + ItemRead(w, n, v);
    } else {
      Append(w, a, log, lower);
      assert [lower] == ItemRead(w, n, v);
    }
  }

  /** After k reads of a stream the data registers hold the k-th item; memory has not changed. */
  lemma {:induction false} ReadStream(w: nat, a: Abs, n: nat, base: nat, first: Verdict, vs: seq<Verdict>)
    requires IsWidth(w) && a.Valid(w) && Good(w, first) && (forall j :: 0 <= j < |vs| ==> Good(w, vs[j]))
    requires base < Addresses(w) && a.regs.readOnAddr && a.regs.readOnData && Streaming(w, a.regs.(addr := base), n)
    ensures var b := Replay(w, a, ReadLog(w, n, base, first, vs));
            && Holding(w, b, n, Address(w, base, |vs|, n), Address(w, base, |vs| + 1, n)) && b.mem == a.mem
  {
    hide LoadFrom, ItemRead, SetAddress, Holding, Streaming;
    var k := |vs| - 1;
    if k < 0 {
      SetAddressHolds(w, a, n, base, first);
      assert Address(w, base, 0, n) == base;
    } else {
      ReadStream(w, a, n, base, first, vs[..k]);
      OneRead(w, a, ReadLog(w, n, base, first, vs[..k]), n, Address(w, base, k, n), Address(w, base, k + 1, n), vs[k]);
    }
  }

  /** The sbcs write that turns on reading ahead and keeps the size and autoincrement of r. */
  function ReadAhead(w: nat, r: SbRegs): Entry {
    var s := r.(readOnAddr := true, readOnData := true, error := 0, busyError := false);
    Entry(Request(Write, SBCS, SbcsWord(w, s)), None)
  }

  lemma ReadAheadStep(w: nat, a: Abs, r: SbRegs)
    requires IsWidth(w) && a.Valid(w) && r.Valid()
             && r.access == a.regs.access && r.autoIncrement == a.regs.autoIncrement
    ensures Step(w, a, ReadAhead(w, r)) == a.(regs := a.regs.(readOnAddr := true, readOnData := true))
  {
    hide SbcsWord, ParseSbcs;
    SbcsFields(w, r.(readOnAddr := true, readOnData := true, error := 0, busyError := false));
  }

  lemma {:induction false} ReplayConcat(w: nat, a: Abs, x: seq<Entry>, y: seq<Entry>)
    requires IsWidth(w) && a.Valid(w) && LogFits(w, x) && LogFits(w, y)
    ensures LogFits(w, x + y) && Replay(w, a, x + y) == Replay(w, Replay(w, a, x), y)
    decreases |y|
  {
    hide Step;
    if y == [] {
      assert x + y == x;
    } else {
      var n := |y| - 1;
      assert (x + y)[..|x| + n] == x + y[..n];
      ReplayConcat(w, a, x, y[..n]);
    }
  }

  /** The whole stream as the debugger issues it: write the items, turn on reading ahead, set the address
      again, and read as many items as ws has answers. */
  function StreamLog(w: nat, r: SbRegs, n: nat, ds: seq<seq<Byte>>, vs: seq<Verdict>, first: Verdict,
                     ws: seq<Verdict>): (log: seq<Entry>)
    requires Items(w, ds, vs) && Good(w, first) && forall j :: 0 <= j < |ws| ==> Good(w, ws[j])
    ensures LogFits(w, log)
  {
    WriteLog(w, n, ds, vs) + [ReadAhead(w, r)] + ReadLog(w, n, r.addr, first, ws)
  }

  /** A stream written from an address and read back from it returns the items, each in the low n bytes of
      the data registers at the time of its read. */
  lemma StreamRoundTrip(w: nat, a: Abs, n: nat, ds: seq<seq<Byte>>, vs: seq<Verdict>, first: Verdict, ws: seq<Verdict>)
    requires IsWidth(w) && a.Valid(w) && Streaming(w, a.regs, n) && Items(w, ds, vs) && n * |ds| <= Addresses(w)
    requires Good(w, first) && (forall j :: 0 <= j < |ws| ==> Good(w, ws[j])) && |ws| < |ds|
    ensures var c := Replay(w, a, StreamLog(w, a.regs, n, ds, vs, first, ws));
            n <= 8 && c.regs.data[..n] == ds[|ws|][..n] && c.mem == StoreStream(w, a.mem, a.regs.addr, ds, n)
  {
    hide StoreStream, ReadAhead, Replay, WriteLog, ReadLog, Streaming, Items, Good;
    var x, y := WriteLog(w, n, ds, vs) + [ReadAhead(w, a.regs)], ReadLog(w, n, a.regs.addr, first, ws);
    Prepared(w, a, n, ds, vs);
    ReplayConcat(w, a, x, y);
    ReadsItem(w, Replay(w, a, x), a.mem, a.regs.addr, n, ds, first, ws);
  }

  /** The stream has been written and reading ahead is on. */
  lemma Prepared(w: nat, a: Abs, n: nat, ds: seq<seq<Byte>>, vs: seq<Verdict>)
    requires IsWidth(w) && a.Valid(w) && Streaming(w, a.regs, n) && Items(w, ds, vs)
    ensures LogFits(w, WriteLog(w, n, ds, vs) + [ReadAhead(w, a.regs)])
    ensures var b := Replay(w, a, WriteLog(w, n, ds, vs) + [ReadAhead(w, a.regs)]);
            && n <= 8 && ItemSize(n) && a.regs.addr % n == 0
            && (forall j :: 0 <= j < |ds| ==> |ds[j]| == 8) && b.mem == StoreStream(w, a.mem, a.regs.addr, ds, n)
            && b.regs.readOnAddr && b.regs.readOnData && Streaming(w, b.regs.(addr := a.regs.addr), n)
  {
    hide StoreStream, Replay, WriteLog, ReadAhead, Step;
    AtMostEight(w, a.regs, n);
    WriteStream(w, a, n, ds, vs);
    KeepsSize(w, a, n, ds, vs);
    ReadAheadFits(w, a.regs);
    ReadAheadStep(w, Replay(w, a, WriteLog(w, n, ds, vs)), a.regs);
    Append(w, a, WriteLog(w, n, ds, vs), ReadAhead(w, a.regs));
  }

  lemma LoadsItem(w: nat, m: Memory, a: nat, ds: seq<seq<Byte>>, n: nat, i: nat)
    requires IsWidth(w) && ItemSize(n) && a < Addresses(w) && a % n == 0 && n * |ds| <= Addresses(w)
    requires (forall k :: 0 <= k < |ds| ==> |ds[k]| == 8) && i < |ds|
    ensures LoadFrom(StoreStream(w, m, a, ds, n), Address(w, a, i, n), n) == ds[i][..n]
  {
    hide StoreStream, Address;
    forall j | 0 <= j < n
      ensures LoadFrom(StoreStream(w, m, a, ds, n), Address(w, a, i, n), n)[j] == ds[i][j]
    {
      StreamStored(w, m, a, ds, n, i, j);
    }
  }

  /** Reading from memory that holds a stream. */
  lemma ReadsItem(w: nat, b: Abs, m: Memory, base: nat, n: nat, ds: seq<seq<Byte>>, first: Verdict, ws: seq<Verdict>)
    requires IsWidth(w) && b.Valid(w) && ItemSize(n) && base < Addresses(w) && base % n == 0 && n * |ds| <= Addresses(w)
    requires forall j :: 0 <= j < |ds| ==> |ds[j]| == 8
    requires b.mem == StoreStream(w, m, base, ds, n) && |ws| < |ds|
    requires b.regs.readOnAddr && b.regs.readOnData && Streaming(w, b.regs.(addr := base), n)
    requires Good(w, first) && forall j :: 0 <= j < |ws| ==> Good(w, ws[j])
    ensures var c := Replay(w, b, ReadLog(w, n, base, first, ws)); c.regs.data[..n] == ds[|ws|][..n] && c.mem == b.mem
  {
    hide StoreStream, Replay, ReadLog, Streaming, Address, LoadFrom;
    ReadStream(w, b, n, base, first, ws);
    LoadsItem(w, m, base, ds, n, |ws|);
  }

  lemma ReadAheadFits(w: nat, r: SbRegs)
    ensures LogFits(w, [ReadAhead(w, r)])
  {
  }

  /** Writing a stream leaves the configuration as it was. */
  lemma KeepsSize(w: nat, a: Abs, n: nat, ds: seq<seq<Byte>>, vs: seq<Verdict>)
    requires IsWidth(w) && a.Valid(w) && Streaming(w, a.regs, n) && Items(w, ds, vs)
    ensures Replay(w, a, WriteLog(w, n, ds, vs)).regs.access == a.regs.access
    ensures Replay(w, a, WriteLog(w, n, ds, vs)).regs.autoIncrement == a.regs.autoIncrement
  {
    WriteStream(w, a, n, ds, vs);
    SizeIsCode(w, a.regs, Replay(w, a, WriteLog(w, n, ds, vs)).regs, n);
  }

  lemma SizeIsCode(w: nat, r: SbRegs, t: SbRegs, n: nat)
    requires IsWidth(w) && r.Valid() && t.Valid() && Streaming(w, r, n) && Streaming(w, t, n)
    ensures r.access == t.access && r.autoIncrement == t.autoIncrement
  {
  }
}
