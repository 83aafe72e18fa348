/**
 The halt-summary registers (src/dm_csrs.sv): a three-level OR reduction over up to 2^20 harts, against
 plain existence of a halted hart in the group.
 */
module Haltsum {
  import opened Bytes
  import opened DmMem

  const MAX_HARTS: nat := 0x10_0000

  // ----- brute force

  /** Some hart numbered from lo up to, not including, hi is halted. */
  predicate AnyIn(s: seq<bool>, lo: nat, hi: nat) { exists h :: lo <= h < hi && BitAt(s, h) }

  /** haltsum0: the harts of the selected group of 32. */
  function Harts(halted: seq<bool>, hartsel: nat): seq<bool> {
    seq(32, i requires 0 <= i < 32 => BitAt(halted, hartsel / 32 * 32 + i))
  }

  /** haltsum1, haltsum2 and haltsum3: bit i tells of the i-th group of size harts from first on. */
  function Groups(halted: seq<bool>, first: nat, size: nat): seq<bool> {
    seq(32, i requires 0 <= i < 32 => AnyIn(halted, first + size * i, first + size * i + size))
  }

  // ----- the tree

  function Blocks(n: nat, size: nat): nat
    requires n > 0 && size > 0
  {
    (n - 1) / size + 1
  }

  /** Word w of a vector reshaped into 32-bit words, zero beyond its end. */
  function WordOf(s: seq<bool>, w: nat): (r: seq<bool>)
    ensures |r| == 32
  {
    seq(32, b requires 0 <= b < 32 => BitAt(s, 32 * w + b))
  }

  /** OR of each of the first n words. */
  function Reduce(s: seq<bool>, n: nat): (r: seq<bool>)
    ensures |r| == n
  {
    seq(n, k requires 0 <= k < n => AnyIn(s, 32 * k, 32 * k + 32))
  }

  /** A word is read only if its index passes a comparison whose right side has been cut to as many bits
      as the index. */
  function Selected(s: seq<bool>, index: nat, words: nat, range: nat): (r: seq<bool>)
    requires range > 0
    ensures |r| == 32
  {
    if index < words % range then WordOf(s, index) else seq(32, _ => false)
  }

  function Flat1(halted: seq<bool>): seq<bool>
    requires |halted| > 0
  {
    Reduce(halted, Blocks(|halted|, 32))
  }

  function Flat2(halted: seq<bool>): seq<bool>
    requires |halted| > 0
  {
    Reduce(Flat1(halted), Blocks(|halted|, 1024))
  }

  function Summary0(halted: seq<bool>, hartsel: nat): seq<bool>
    requires |halted| > 0
  {
    Selected(halted, hartsel / 32, Blocks(|halted|, 32), 0x8000)
  }

  function Summary1(halted: seq<bool>, hartsel: nat): seq<bool>
    requires |halted| > 0
  {
    Selected(Flat1(halted), hartsel / 1024, Blocks(|halted|, 1024), 0x400)
  }

  function Summary2(halted: seq<bool>, hartsel: nat): seq<bool>
    requires |halted| > 0
  {
    Selected(Flat2(halted), hartsel / 0x8000, Blocks(|halted|, 0x8000), 0x20)
  }

  /** Bit i of the last level; None where the loop reads a word that does not exist. */
  function Summary3Bit(halted: seq<bool>, i: nat): Option<bool>
    requires |halted| > 0
  {
    if i > |halted| / 0x8000 then Some(false)
    else if i < Blocks(|halted|, 0x8000) then Some(AnyIn(Flat2(halted), 32 * i, 32 * i + 32))
    else None
  }

  function Summary3(halted: seq<bool>): (r: seq<Option<bool>>)
    requires |halted| > 0
    ensures |r| == 32
  {
    seq(32, i requires 0 <= i < 32 => Summary3Bit(halted, i))
  }

  /** The bits of the last level; one that is read from a word that does not exist is taken as zero. */
  function Defined(s: seq<Option<bool>>): (r: seq<bool>)
    ensures |r| == |s|
  {
    seq(|s|, i requires 0 <= i < |s| => s[i].Some? && s[i].value)
  }

  /** The combinational blocks, with their loops. */
  method HaltSummary(halted: seq<bool>, hartsel: nat)
    returns (sum0: seq<bool>, sum1: seq<bool>, sum2: seq<bool>, sum3: seq<Option<bool>>)
    requires 0 < |halted| <= MAX_HARTS && hartsel < MAX_HARTS
    ensures sum0 == Summary0(halted, hartsel) && sum1 == Summary1(halted, hartsel)
    ensures sum2 == Summary2(halted, hartsel) && sum3 == Summary3(halted)
  {
    var n := |halted|;
    sum0 := Selected(halted, hartsel / 32, Blocks(n, 32), 0x8000);

    var flat1: seq<bool> := [];
    for k := 0 to Blocks(n, 32)
      invariant flat1 == Reduce(halted, k)
    {
      AnyWord(halted, k);
      flat1 := flat1 + [Any(WordOf(halted, k))];
    }
    sum1 := Selected(flat1, hartsel / 1024, Blocks(n, 1024), 0x400);

    var flat2: seq<bool> := [];
    for k := 0 to Blocks(n, 1024)
      invariant flat2 == Reduce(flat1, k)
    {
      AnyWord(flat1, k);
      flat2 := flat2 + [Any(WordOf(flat1, k))];
    }
    sum2 := Selected(flat2, hartsel / 0x8000, Blocks(n, 0x8000), 0x20);

    sum3 := seq(32, _ => Some(false));
    for k := 0 to n / 0x8000 + 1
      invariant |sum3| == 32
      invariant forall i :: 0 <= i < 32 ==> sum3[i] == if i < k then Summary3Bit(halted, i) else Some(false)
    {
      if k < 32 {
        AnyWord(flat2, k);
        sum3 := sum3[k := if k < Blocks(n, 0x8000) then Some(Any(WordOf(flat2, k))) else None];
      }
    }
  }

  /** OR of all bits of a word. */
  predicate Any(w: seq<bool>) { exists b :: 0 <= b < |w| && w[b] }

  lemma AnyWord(s: seq<bool>, k: nat)
    ensures Any(WordOf(s, k)) <==> AnyIn(s, 32 * k, 32 * k + 32)
  {
    if h :| 32 * k <= h < 32 * k + 32 && BitAt(s, h) {
      assert WordOf(s, k)[h - 32 * k];
    }
  }

  // ----- the tree finds exactly the halted harts

  /** One level up: a set bit among the groups a to b is a set bit among their members. */
  lemma Level(s: seq<bool>, n: nat, a: nat, b: nat)
    requires |s| <= 32 * n
    ensures AnyIn(Reduce(s, n), a, b) <==> AnyIn(s, 32 * a, 32 * b)
  {
    var r := Reduce(s, n);
    if h :| a <= h < b && BitAt(r, h) {
      var g :| 32 * h <= g < 32 * h + 32 && BitAt(s, g);
      assert 32 * a <= g < 32 * b;
    }
    if g :| 32 * a <= g < 32 * b && BitAt(s, g) {
      assert 32 * (g / 32) <= g < 32 * (g / 32) + 32;
      assert BitAt(r, g / 32);
    }
  }

  lemma SingleBit(s: seq<bool>, k: nat)
    ensures BitAt(s, k) <==> AnyIn(s, k, k + 1)
  {
    if BitAt(s, k) { assert k <= k < k + 1; }
  }

  lemma FlatSizes(halted: seq<bool>)
    requires 0 < |halted|
    ensures |halted| <= 32 * |Flat1(halted)|
    ensures |Flat1(halted)| <= 32 * |Flat2(halted)|
    ensures |Flat2(halted)| <= 32 * Blocks(|halted|, 0x8000)
  {
    var m := |halted| - 1;
    assert m / 1024 == m / 32 / 32 && m / 0x8000 == m / 1024 / 32;
  }

  /** A word of a flattened level is the brute-force summary of its groups. */
  lemma Word1(halted: seq<bool>, w: nat)
    requires 0 < |halted|
    ensures WordOf(Flat1(halted), w) == Groups(halted, 1024 * w, 32)
  {
    hide Flat1, AnyIn;
    forall i | 0 <= i < 32
      ensures BitAt(Flat1(halted), 32 * w + i) <==> AnyIn(halted, 1024 * w + 32 * i, 1024 * w + 32 * i + 32)
    {
      GroupBit(halted, 32 * w + i, 1024 * w + 32 * i);
    }
  }

  lemma GroupBit(halted: seq<bool>, k: nat, first: nat)
    requires 0 < |halted| && first == 32 * k
    ensures BitAt(Flat1(halted), k) <==> AnyIn(halted, first, first + 32)
  {
    FlatSizes(halted);
    SingleBit(Flat1(halted), k);
    Level(halted, |Flat1(halted)|, k, k + 1);
  }

  lemma Word2(halted: seq<bool>, w: nat)
    requires 0 < |halted|
    ensures WordOf(Flat2(halted), w) == Groups(halted, 0x8000 * w, 1024)
  {
    FlatSizes(halted);
    forall i | 0 <= i < 32
      ensures BitAt(Flat2(halted), 32 * w + i) <==> AnyIn(halted, 0x8000 * w + 1024 * i, 0x8000 * w + 1024 * i + 1024)
    {
      var k := 32 * w + i;
      SingleBit(Flat2(halted), k);
      Level(Flat1(halted), |Flat2(halted)|, k, k + 1);
      Level(halted, |Flat1(halted)|, 32 * k, 32 * k + 32);
    }
  }

  /** Beyond the last hart everything is zero. */
  lemma NoneBeyond(s: seq<bool>, lo: nat, hi: nat)
    requires |s| <= lo
    ensures !AnyIn(s, lo, hi)
  {
  }

  lemma EmptyGroups(s: seq<bool>, first: nat, size: nat)
    requires |s| <= first
    ensures Groups(s, first, size) == seq(32, _ => false)
  {
    forall i | 0 <= i < 32 ensures !AnyIn(s, first + size * i, first + size * i + size) {
      NoneBeyond(s, first + size * i, first + size * i + size);
    }
  }

  lemma EmptyHarts(s: seq<bool>, hartsel: nat)
    requires |s| <= hartsel / 32 * 32
    ensures Harts(s, hartsel) == seq(32, _ => false)
  {
    var h, zeros := Harts(s, hartsel), seq(32, _ => false);
    forall i | 0 <= i < 32 ensures h[i] == zeros[i] {
      assert h[i] == BitAt(s, hartsel / 32 * 32 + i);
    }
  }

  // ----- for which numbers of harts each register is right

  ghost predicate Right0(n: nat)
    requires n > 0
  {
    forall halted: seq<bool>, hartsel: nat | |halted| == n && hartsel < MAX_HARTS ::
      Summary0(halted, hartsel) == Harts(halted, hartsel)
  }

  ghost predicate Right1(n: nat)
    requires n > 0
  {
    forall halted: seq<bool>, hartsel: nat | |halted| == n && hartsel < MAX_HARTS ::
      Summary1(halted, hartsel) == Groups(halted, hartsel / 1024 * 1024, 32)
  }

  ghost predicate Right2(n: nat)
    requires n > 0
  {
    forall halted: seq<bool>, hartsel: nat | |halted| == n && hartsel < MAX_HARTS ::
      Summary2(halted, hartsel) == Groups(halted, hartsel / 0x8000 * 0x8000, 1024)
  }

  ghost predicate Right3(n: nat)
    requires n > 0
  {
    forall halted: seq<bool> | |halted| == n :: forall i | 0 <= i < 32 ::
      Summary3(halted)[i] == Some(AnyIn(halted, 0x8000 * i, 0x8000 * i + 0x8000))
  }

  function AllHalted(n: nat): (s: seq<bool>)
    ensures |s| == n
  {
    seq(n, _ => true)
  }

  /** haltsum0 is right up to 32767 groups of 32; with more the width of the comparison turns it off. */
  lemma Haltsum0Exact(n: nat)
    requires 0 < n <= MAX_HARTS
    ensures Right0(n) <==> n <= 32767 * 32
  {
    if n <= 32767 * 32 {
      forall halted: seq<bool>, hartsel: nat | |halted| == n && hartsel < MAX_HARTS
        ensures Summary0(halted, hartsel) == Harts(halted, hartsel)
      {
        assert WordOf(halted, hartsel / 32) == Harts(halted, hartsel);
        if hartsel / 32 >= Blocks(n, 32) {
          assert n <= hartsel / 32 * 32;
          EmptyHarts(halted, hartsel);
        }
      }
    } else {
      assert BitAt(AllHalted(n), 0) && Harts(AllHalted(n), 0)[0];
      assert !Summary0(AllHalted(n), 0)[0];
    }
  }

  lemma Haltsum1Exact(n: nat)
    requires 0 < n <= MAX_HARTS
    ensures Right1(n) <==> n <= 1023 * 1024
  {
    if n <= 1023 * 1024 {
      forall halted: seq<bool>, hartsel: nat | |halted| == n && hartsel < MAX_HARTS
        ensures Summary1(halted, hartsel) == Groups(halted, hartsel / 1024 * 1024, 32)
      {
        Word1(halted, hartsel / 1024);
        if hartsel / 1024 >= Blocks(n, 1024) { EmptyGroups(halted, hartsel / 1024 * 1024, 32); }
      }
    } else {
      FirstGroup(n, 32);
      assert !Summary1(AllHalted(n), 0)[0];
    }
  }

  lemma Haltsum2Exact(n: nat)
    requires 0 < n <= MAX_HARTS
    ensures Right2(n) <==> n <= 31 * 0x8000
  {
    if n <= 31 * 0x8000 {
      forall halted: seq<bool>, hartsel: nat | |halted| == n && hartsel < MAX_HARTS
        ensures Summary2(halted, hartsel) == Groups(halted, hartsel / 0x8000 * 0x8000, 1024)
      {
        Word2(halted, hartsel / 0x8000);
        if hartsel / 0x8000 >= Blocks(n, 0x8000) { EmptyGroups(halted, hartsel / 0x8000 * 0x8000, 1024); }
      }
    } else {
      FirstGroup(n, 1024);
      assert !Summary2(AllHalted(n), 0)[0];
    }
  }

  lemma FirstGroup(n: nat, size: nat)
    requires n > 0 && size > 0
    ensures Groups(AllHalted(n), 0, size)[0]
  {
    assert BitAt(AllHalted(n), 0);
  }

  /** The last loop runs one word too far exactly when the harts fill their groups of 32768; with all 32
      groups full the extra bit falls off the register. */
  lemma Haltsum3Exact(n: nat)
    requires 0 < n <= MAX_HARTS
    ensures Right3(n) <==> n % 0x8000 != 0 || n == MAX_HARTS
  {
    if n % 0x8000 != 0 || n == MAX_HARTS {
      forall halted: seq<bool> | |halted| == n
        ensures forall i | 0 <= i < 32 ::
                  Summary3(halted)[i] == Some(AnyIn(halted, 0x8000 * i, 0x8000 * i + 0x8000))
      {
        forall i | 0 <= i < 32 ensures Summary3Bit(halted, i) == Some(AnyIn(halted, 0x8000 * i, 0x8000 * i + 0x8000)) {
          Bit3(halted, i);
        }
      }
    } else {
      assert Summary3(AllHalted(n))[n / 0x8000].None?;
    }
  }

  lemma Bit3(halted: seq<bool>, i: nat)
    requires 0 < |halted| <= MAX_HARTS && i < 32
    requires i <= |halted| / 0x8000 ==> i < Blocks(|halted|, 0x8000)
    ensures Summary3Bit(halted, i) == Some(AnyIn(halted, 0x8000 * i, 0x8000 * i + 0x8000))
  {
    FlatSizes(halted);
    if i > |halted| / 0x8000 {
      NoneBeyond(halted, 0x8000 * i, 0x8000 * i + 0x8000);
    } else {
      Level(Flat1(halted), |Flat2(halted)|, 32 * i, 32 * i + 32);
      Level(halted, |Flat1(halted)|, 1024 * i, 1024 * i + 1024);
    }
  }

  /** Up to 31 * 32768 harts, not filling their groups of 32768 exactly, every summary register is right. */
  lemma AllRight(n: nat)
    requires 0 < n <= 31 * 0x8000 && n % 0x8000 != 0
    ensures Right0(n) && Right1(n) && Right2(n) && Right3(n)
  {
    Haltsum0Exact(n);
    Haltsum1Exact(n);
    Haltsum2Exact(n);
    Haltsum3Exact(n);
  }
}
