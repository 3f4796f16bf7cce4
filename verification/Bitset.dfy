/** Bit sets over 64-bit words, and the set of naturals each one stands for. */
module Bitset {
  import opened Words

  /** The naturals stored in a sequence of words: bit p % 64 of word p / 64 stands for p. */
  ghost function Elems(words: seq<Word>): set<nat> {
    set p: nat | p < WORD_BITS * |words| && Bit(words[p / WORD_BITS], p % WORD_BITS)
  }

  /** Two bit sets of one length hold the same naturals only if they are the same words. */
  lemma ElemsInjective(a: seq<Word>, b: seq<Word>)
    requires |a| == |b| && Elems(a) == Elems(b)
    ensures a == b
  {
    forall i | 0 <= i < |a| ensures a[i] == b[i] {
      forall j: nat | j < WORD_BITS ensures Bit(a[i], j) == Bit(b[i], j) {
        var p := WORD_BITS * i + j;
        assert p / WORD_BITS == i && p % WORD_BITS == j;
        assert p in Elems(a) <==> Bit(a[i], j);
        assert p in Elems(b) <==> Bit(b[i], j);
      }
      WordExtensional(a[i], b[i]);
    }
  }

  ghost function Total(words: seq<Word>): nat {
    if words == [] then 0 else Total(words[..|words| - 1]) + OnesBelow(words[|words| - 1], WORD_BITS)
  }

  ghost function XorAll(seed: Word, words: seq<Word>): Word {
    if words == [] then seed else XorWord(XorAll(seed, words[..|words| - 1]), words[|words| - 1])
  }

  /** uint64(n): the conversion keeps the low 64 bits. */
  function ToUint64(n: nat): Word {
    n % 0x1_0000_0000_0000_0000
  }

  ghost function HashOf(words: seq<Word>): Word {
    XorAll(ToUint64(Total(words)), words)
  }

  /** How many words have bit j. */
  ghost function HaveBit(words: seq<Word>, j: nat): nat {
    if words == [] then 0 else
      HaveBit(words[..|words| - 1], j) + if Bit(words[|words| - 1], j) then 1 else 0
  }

  lemma {:induction false} XorAllBits(seed: Word, words: seq<Word>, j: nat)
    ensures Bit(XorAll(seed, words), j) <==> (HaveBit(words, j) + if Bit(seed, j) then 1 else 0) % 2 == 1
  {
    if words != [] {
      var n := |words| - 1;
      XorAllBits(seed, words[..n], j);
      BitOfXor(XorAll(seed, words[..n]), words[n], j);
    }
  }

  /** A bit of the hash is the parity of that bit over all words and the population count. */
  lemma {:induction false} HashBits(words: seq<Word>, j: nat)
    ensures Bit(HashOf(words), j) <==>
              (HaveBit(words, j) + if Bit(ToUint64(|Elems(words)|), j) then 1 else 0) % 2 == 1
  {
    TotalIsCardinality(words);
    XorAllBits(ToUint64(Total(words)), words, j);
  }

  /** The population count is the size of the set. */
  lemma {:induction false} TotalIsCardinality(words: seq<Word>)
    ensures Total(words) == |Elems(words)|
  {
    if words != [] {
      var n := |words| - 1;
      TotalIsCardinality(words[..n]);
      OnesBelowCounts(words[n], WORD_BITS * n, WORD_BITS);
      ElemsSplit(words);
    } else {
      assert Elems(words) == {};
    }
  }

  lemma ElemsSplit(words: seq<Word>)
    requires words != []
    ensures var n := |words| - 1;
            var last := BitsBelow(words[n], WORD_BITS * n, WORD_BITS);
            Elems(words) == Elems(words[..n]) + last && Elems(words[..n]) !! last
  {
    var n := |words| - 1;
    var last := BitsBelow(words[n], WORD_BITS * n, WORD_BITS);
    forall p: nat ensures p in Elems(words) <==> p in Elems(words[..n]) + last {
      if WORD_BITS * n <= p < WORD_BITS * n + WORD_BITS {
        assert p / WORD_BITS == n && p % WORD_BITS == p - WORD_BITS * n;
      } else if p < WORD_BITS * n {
        assert p / WORD_BITS < n;
        assert words[p / WORD_BITS] == words[..n][p / WORD_BITS];
      }
    }
  }

  lemma ElemsAfterUpdate(before: seq<Word>, pos: nat)
    requires pos < WORD_BITS * |before|
    ensures var (major, minor) := (pos / WORD_BITS, pos % WORD_BITS);
            && Elems(before[major := WithBit(before[major], minor)]) == Elems(before) + {pos}
            && Elems(before[major := WithoutBit(before[major], minor)]) == Elems(before) - {pos}
  {
    var (major, minor) := (pos / WORD_BITS, pos % WORD_BITS);
    forall i: nat
      ensures Bit(WithBit(before[major], minor), i) <==> i == minor || Bit(before[major], i)
      ensures Bit(WithoutBit(before[major], minor), i) <==> i != minor && Bit(before[major], i)
    {
      BitsOfOps(before[major], minor, i);
    }
  }

  // ---- the operations on the word slice ----

  method NewBitset(bits: nat) returns (b: array<Word>)
    ensures fresh(b)
    ensures bits <= WORD_BITS * b.Length < bits + WORD_BITS
    ensures Elems(b[..]) == {}
  {
    var extra := if bits % WORD_BITS != 0 then 1 else 0;
    b := new Word[bits / WORD_BITS + extra](_ => 0);
    forall p: nat | p < WORD_BITS * b.Length ensures !Bit(b[..][p / WORD_BITS], p % WORD_BITS) {
      NoBits(p % WORD_BITS);
    }
  }

  method Clone(b: array<Word>) returns (c: array<Word>)
    ensures fresh(c) && c[..] == b[..]
  {
    c := new Word[b.Length];
    for i := 0 to b.Length
      invariant c[..i] == b[..i]
    {
      c[i] := b[i];
    }
    assert c[..] == c[..b.Length] == b[..b.Length] == b[..];
  }

  method Set(b: array<Word>, pos: nat)
    requires pos < WORD_BITS * b.Length
    modifies b
    ensures Elems(b[..]) == old(Elems(b[..])) + {pos}
  {
    ghost var before := b[..];
    b[pos / WORD_BITS] := WithBit(b[pos / WORD_BITS], pos % WORD_BITS);
    ElemsAfterUpdate(before, pos);
    assert b[..] == before[pos / WORD_BITS := WithBit(before[pos / WORD_BITS], pos % WORD_BITS)];
  }

  method Clear(b: array<Word>, pos: nat)
    requires pos < WORD_BITS * b.Length
    modifies b
    ensures Elems(b[..]) == old(Elems(b[..])) - {pos}
  {
    ghost var before := b[..];
    b[pos / WORD_BITS] := WithoutBit(b[pos / WORD_BITS], pos % WORD_BITS);
    ElemsAfterUpdate(before, pos);
    assert b[..] == before[pos / WORD_BITS := WithoutBit(before[pos / WORD_BITS], pos % WORD_BITS)];
  }

  method Get(b: array<Word>, pos: nat) returns (r: bool)
    requires pos < WORD_BITS * b.Length
    ensures r <==> pos in Elems(b[..])
  {
    r := Bit(b[pos / WORD_BITS], pos % WORD_BITS);
  }

  method Popcnt(b: array<Word>) returns (total: nat)
    ensures total == |Elems(b[..])|
    ensures total == Total(b[..])
  {
    total := 0;
    for i := 0 to b.Length
      invariant total == Total(b[..i])
    {
      total := total + OnesBelow(b[i], WORD_BITS);
      assert b[..i + 1][..i] == b[..i];
    }
    assert b[..b.Length] == b[..];
    TotalIsCardinality(b[..]);
  }

  method Hash(b: array<Word>) returns (hash: Word)
    ensures hash == HashOf(b[..])
  {
    var count := Popcnt(b);
    hash := ToUint64(count);
    ghost var seed := hash;
    for i := 0 to b.Length
      invariant hash == XorAll(seed, b[..i])
    {
      hash := XorWord(hash, b[i]);
      assert b[..i + 1][..i] == b[..i];
    }
    assert b[..b.Length] == b[..];
  }

  /** equals decides equality of the stored sets, for bit sets of one length. */
  method Equals(b: array<Word>, b2: array<Word>) returns (r: bool)
    ensures r <==> b.Length == b2.Length && Elems(b[..]) == Elems(b2[..])
  {
    if b.Length != b2.Length {
      return false;
    }
    for i := 0 to b.Length
      invariant b[..i] == b2[..i]
    {
      if b[i] != b2[i] {
        assert b[..][i] != b2[..][i];
        if Elems(b[..]) == Elems(b2[..]) {
          ElemsInjective(b[..], b2[..]);
        }
        return false;
      }
    }
    assert b[..] == b[..b.Length] == b2[..b.Length] == b2[..];
    return true;
  }
}
