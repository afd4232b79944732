/** CalculateChecksum: the Internet checksum (section 1 of RFC 1071), summed in 32 bits and
    folded twice. */
module ChecksumModel {
  import opened BufferIOModel

  const ACCUMULATOR: nat := 0x1_0000_0000

  function Wrapped(n: nat): nat { n % 0x1_0000_0000 }

  function Word(low: nat, high: nat): nat { low + 256 * high }

  // The buffer's 16-bit words as a little-endian machine reads them; a last odd byte stands
  // for itself
  function Words(s: seq<byte>): (w: seq<nat>)
    ensures |w| == (|s| + 1) / 2
    ensures forall i :: 0 <= i < |w| ==> w[i] < 0x1_0000
    decreases |s|
  {
    if s == [] then [] else if |s| == 1 then [s[0]] else [Word(s[0], s[1])] + Words(s[2..])
  }

  function Total(w: seq<nat>): nat { if w == [] then 0 else Total(w[..|w| - 1]) + w[|w| - 1] }

  // ---------------------------------------------------------------- the one's-complement sum

  // Addition with end-around carry
  function OnesAdd(a: nat, b: nat): nat { if a + b > 0xFFFF then a + b - 0xFFFF else a + b }

  function OnesSum(w: seq<nat>): nat { if w == [] then 0 else OnesAdd(OnesSum(w[..|w| - 1]), w[|w| - 1]) }

  function Complement(n: nat): nat { if n <= 0xFFFF then 0xFFFF - n else 0 }

  // The 16-bit number that stands for n: zero only for zero itself
  function Residue(n: nat): nat { if n == 0 then 0 else (n - 1) % 0xFFFF + 1 }

  lemma CarriesAround(n: nat, b: nat)
    requires b < 0x1_0000
    ensures OnesAdd(Residue(n), b) == Residue(n + b)
  {
  }

  lemma {:induction false} OnesSumIsResidue(w: seq<nat>)
    requires forall i :: 0 <= i < |w| ==> w[i] < 0x1_0000
    ensures OnesSum(w) == Residue(Total(w)) <= 0xFFFF
  {
    if w != [] {
      OnesSumIsResidue(w[..|w| - 1]);
      CarriesAround(Total(w[..|w| - 1]), w[|w| - 1]);
    }
  }

  // ---------------------------------------------------------------- the computation

  function Fold(n: nat): nat { n / 0x1_0000 + n % 0x1_0000 }

  // The last two lines on the 32-bit accumulator
  function Finish(n: nat): nat {
    var once := Fold(n);
    0xFFFF - (once + once / 0x1_0000) % 0x1_0000
  }

  method CalculateChecksum(buffer: seq<byte>) returns (r: nat)
    ensures r == Finish(Wrapped(Total(Words(buffer))))
    ensures Total(Words(buffer)) < ACCUMULATOR ==> r == Complement(OnesSum(Words(buffer)))
    ensures |buffer| <= 2 * 65537 ==> r == Complement(OnesSum(Words(buffer)))
  {
    var chksum, at, size := 0, 0, |buffer|;
    ghost var words, k := Words(buffer), 0;
    while size > 1
      invariant 0 <= size <= |buffer| && at + size == |buffer| && at == 2 * k && k <= |words|
      invariant chksum == Wrapped(Total(words[..k]))
    {
      OneMoreWord(buffer, k);
      chksum := Wrapped(chksum + Word(buffer[at], buffer[at + 1]));
      at := at + 2;
      size := size - 2;
      k := k + 1;
    }
    if size == 1 {
      OneMoreWord(buffer, k);
      chksum := Wrapped(chksum + buffer[at]);
      k := k + 1;
    }
    assert words[..k] == words;
    FinishIsRight(words);
    r := FoldTwice(chksum);
  }

  method FoldTwice(sum: nat) returns (r: nat)
    requires sum < ACCUMULATOR
    ensures r == Finish(sum)
  {
    var chksum := sum / 0x1_0000 + sum % 0x1_0000;
    chksum := chksum + chksum / 0x1_0000;
    r := 0xFFFF - chksum % 0x1_0000;
  }

  lemma OneMoreWord(s: seq<byte>, k: nat)
    requires 2 * k < |s|
    ensures k < |Words(s)|
    ensures var word := if 2 * k + 1 < |s| then Word(s[2 * k], s[2 * k + 1]) else s[2 * k];
      Wrapped(Total(Words(s)[..k + 1])) == Wrapped(Wrapped(Total(Words(s)[..k])) + word)
  {
    WordAt(s, k);
    TotalMore(Words(s), k);
    WrapEarly(Total(Words(s)[..k]), Words(s)[k]);
  }

  lemma WrapEarly(a: nat, b: nat)
    ensures Wrapped(a + b) == Wrapped(Wrapped(a) + b)
  {
    assert a + b == 0x1_0000_0000 * (a / 0x1_0000_0000) + (a % 0x1_0000_0000 + b);
  }

  lemma WrapNone(n: nat)
    requires n < ACCUMULATOR
    ensures Wrapped(n) == n
  {
  }

  lemma FinishIsRight(w: seq<nat>)
    requires forall i :: 0 <= i < |w| ==> w[i] < 0x1_0000
    ensures Total(w) < ACCUMULATOR ==> Finish(Wrapped(Total(w))) == Complement(OnesSum(w))
    ensures |w| <= 65537 ==> Total(w) < ACCUMULATOR
  {
    OnesSumIsResidue(w);
    TotalBound(w);
    FoldsWhole(Total(w));
  }

  lemma FoldsWhole(n: nat)
    ensures n < ACCUMULATOR ==> Finish(Wrapped(n)) == Complement(Residue(n)) && Wrapped(n) == n
  {
    if n < ACCUMULATOR {
      WrapNone(n);
      FoldsSuffice(n);
    }
  }

  lemma {:induction false} WordAt(s: seq<byte>, k: nat)
    requires 2 * k < |s|
    ensures Words(s)[k] == if 2 * k + 1 < |s| then Word(s[2 * k], s[2 * k + 1]) else s[2 * k]
    decreases k
  {
    if k > 0 { WordAt(s[2..], k - 1); }
  }

  lemma TotalMore(w: seq<nat>, k: nat)
    requires k < |w|
    ensures Total(w[..k + 1]) == Total(w[..k]) + w[k]
  {
    assert w[..k + 1][..k] == w[..k];
  }

  /** A sum of n words cannot pass n times the largest word: 65537 words fit 32 bits. */
  lemma {:induction false} TotalBound(w: seq<nat>)
    requires forall i :: 0 <= i < |w| ==> w[i] < 0x1_0000
    ensures Total(w) <= 0xFFFF * |w|
    ensures |w| <= 65537 ==> Total(w) < ACCUMULATOR
  {
    if w != [] { TotalBound(w[..|w| - 1]); }
  }

  /** Two folds bring any 32-bit sum to its 16-bit residue. */
  lemma FoldsSuffice(n: nat)
    requires n < ACCUMULATOR
    ensures Finish(n) == Complement(Residue(n))
  {
    var h, l := n / 0x1_0000, n % 0x1_0000;
    assert n == 0xFFFF * h + (h + l);
  }

  lemma ResidueShift(n: nat, k: nat)
    requires n > 0
    ensures Residue(n + 0xFFFF * k) == Residue(n)
  {
    assert (n - 1 + 0xFFFF * k) % 0xFFFF == (n - 1) % 0xFFFF;
  }

  /** With the accumulator wrapping at 32 bits, the result is the checksum exactly when no
      carry was lost, or 65535 of them (or a multiple) were and something is left. */
  lemma ExactlyWhenRight(w: seq<nat>)
    requires forall i :: 0 <= i < |w| ==> w[i] < 0x1_0000
    ensures var lost, left := Total(w) / 0x1_0000_0000, Wrapped(Total(w));
      Finish(left) == Complement(OnesSum(w)) <==> lost == 0 || (lost % 0xFFFF == 0 && left != 0)
  {
    var lost, left := Total(w) / 0x1_0000_0000, Wrapped(Total(w));
    OnesSumIsResidue(w);
    FoldsSuffice(left);
    assert Total(w) == left + lost + 0xFFFF * (65537 * lost);
    if left + lost > 0 { ResidueShift(left + lost, 65537 * lost); }
    LostCarries(left, lost);
  }

  lemma LostCarries(left: nat, lost: nat)
    ensures Residue(left) == Residue(left + lost) <==> lost == 0 || (lost % 0xFFFF == 0 && left != 0)
  {
    var q, r := lost / 0xFFFF, lost % 0xFFFF;
    if left > 0 { ResidueShift(left + r, q); }
  }

  // ---------------------------------------------------------------- using it

  // The result stored in the word at an index
  function Stored(s: seq<byte>, k: nat, r: nat): seq<byte>
    requires 2 * k + 1 < |s| && r < 0x1_0000
  {
    s[2 * k := r % 256][2 * k + 1 := r / 256]
  }

  lemma {:induction false} StoredWords(s: seq<byte>, k: nat, r: nat)
    requires 2 * k + 1 < |s| && r < 0x1_0000
    ensures Words(Stored(s, k, r)) == Words(s)[k := r]
    decreases k
  {
    if k > 0 {
      assert Stored(s, k, r)[2..] == Stored(s[2..], k - 1, r);
      StoredWords(s[2..], k - 1, r);
    } else {
      assert Stored(s, k, r)[2..] == s[2..];
    }
  }

  lemma {:induction false} TotalUpdate(w: seq<nat>, k: nat, r: nat)
    requires k < |w|
    ensures Total(w[k := r]) == Total(w) - w[k] + r
    decreases |w|
  {
    if k < |w| - 1 {
      TotalUpdate(w[..|w| - 1], k, r);
      assert w[k := r][..|w| - 1] == w[..|w| - 1][k := r];
    } else {
      assert w[k := r][..|w| - 1] == w[..|w| - 1];
    }
  }

  /** Storing the checksum in the zeroed checksum word makes the whole sum to all ones, and
      the checksum of the result zero. */
  lemma ChecksumChecks(s: seq<byte>, k: nat)
    requires 2 * k + 1 < |s| && Words(s)[k] == 0
    ensures var r := Complement(OnesSum(Words(s)));
      && r < 0x1_0000
      && OnesSum(Words(Stored(s, k, r))) == 0xFFFF
      && (Total(Words(Stored(s, k, r))) < ACCUMULATOR ==> Finish(Total(Words(Stored(s, k, r)))) == 0)
  {
    OnesSumIsResidue(Words(s));
    StoredWords(s, k, Complement(OnesSum(Words(s))));
    SumChecks(Words(s), k, Complement(OnesSum(Words(s))));
  }

  lemma SumChecks(w: seq<nat>, k: nat, r: nat)
    requires forall i :: 0 <= i < |w| ==> w[i] < 0x1_0000
    requires k < |w| && w[k] == 0 && r == Complement(OnesSum(w))
    ensures OnesSum(w[k := r]) == 0xFFFF
    ensures Total(w[k := r]) < ACCUMULATOR ==> Finish(Total(w[k := r])) == 0
  {
    OnesSumIsResidue(w);
    AllOnes(Total(w));
    TotalUpdate(w, k, r);
    OnesSumIsResidue(w[k := r]);
    FoldsWhole(Total(w[k := r]));
    assert Complement(0xFFFF) == 0;
  }

  lemma AllOnes(n: nat)
    ensures Residue(n) <= 0xFFFF && Residue(n + (0xFFFF - Residue(n))) == 0xFFFF
  {
  }

  /** One word more than 65537 can go wrong: with all bits set, a carry is lost. */
  lemma BoundIsTight(w: seq<nat>)
    requires |w| == 65538 && forall i :: 0 <= i < |w| ==> w[i] == 0xFFFF
    ensures Finish(Wrapped(Total(w))) != Complement(OnesSum(w))
  {
    TotalOfOnes(w);
    ExactlyWhenRight(w);
  }

  lemma {:induction false} TotalOfOnes(w: seq<nat>)
    requires forall i :: 0 <= i < |w| ==> w[i] == 0xFFFF
    ensures Total(w) == 0xFFFF * |w|
  {
    if w != [] { TotalOfOnes(w[..|w| - 1]); }
  }
}
