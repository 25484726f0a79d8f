/** Kernel capability bitmaps: hexadecimal words, the most significant first. */
module Bitmap {
  import opened Prelude
  import opened Text
  import opened Bits

  const WORD_BITS: nat := 64

  predicate IsHex(c: char) {
    IsDigit(c) || 'a' <= c <= 'f' || 'A' <= c <= 'F'
  }

  function HexDigit(c: char): (d: nat)
    requires IsHex(c)
    ensures d < 16
  {
    if IsDigit(c) then c as int - '0' as int
    else if c >= 'a' then c as int - 'a' as int + 10 else c as int - 'A' as int + 10
  }

  function HexValue(s: string): nat
    requires forall i :: 0 <= i < |s| ==> IsHex(s[i])
  {
    if s == [] then 0 else 16 * HexValue(s[..|s| - 1]) + HexDigit(s[|s| - 1])
  }

  /** `usize::from_str_radix(word, 16).unwrap_or_default()` on a 64-bit machine. */
  function Word(s: string): (w: nat)
    ensures w <= U64_MAX
  {
    var digits := if s != [] && s[0] == '+' then s[1..] else s;
    if digits == [] || (exists i :: 0 <= i < |digits| && !IsHex(digits[i])) || HexValue(digits) > U64_MAX then 0
    else HexValue(digits)
  }

  lemma PowerSquared(n: nat, p: nat)
    requires Power(n) == p
    ensures Power(2 * n) == p * p
  {
    PowerAdd(n, n);
  }

  lemma SixtyFour(bits: nat)
    requires bits == WORD_BITS
    ensures Power(bits) == U64_MAX + 1
  {
    var n := bits / 16;
    assert n == 4 && Power(n - 3) == 2;
    assert Power(n - 2) == 4;
    assert Power(n - 1) == 8;
    assert Power(n) == 16;
    PowerSquared(n, 16);
    PowerSquared(2 * n, 256);
    PowerSquared(4 * n, 0x1_0000);
    PowerSquared(8 * n, 0x1_0000_0000);
  }

  // ----- the bitmap -----

  /** The words of a bitmap, least significant first. */
  function Words(value: string): (words: seq<nat>)
    ensures forall i :: 0 <= i < |words| ==> words[i] <= U64_MAX
  {
    var parts := Split(value, ' ');
    seq(|parts|, i requires 0 <= i < |parts| => Word(parts[|parts| - 1 - i]))
  }

  predicate HasCode(words: seq<nat>, code: nat) {
    code / WORD_BITS < |words| && Bit(words[code / WORD_BITS], code % WORD_BITS)
  }

  function Saturating(n: nat): nat {
    if n > U64_MAX then U64_MAX else n
  }

  predicate StrictlyAscending(codes: seq<nat>) {
    forall i, j :: 0 <= i < j < |codes| ==> codes[i] < codes[j]
  }

  /** The codes found once every code below `limit` has been looked at. */
  ghost predicate Found(words: seq<nat>, codes: seq<nat>, limit: nat) {
    && StrictlyAscending(codes)
    && (forall c: nat :: c in codes <==> c < limit && c <= U16_MAX && HasCode(words, c))
  }

  /** Codes beyond 16 bits are dropped. */
  function Appended(codes: seq<nat>, code: nat): seq<nat> {
    if code <= U16_MAX then codes + [code] else codes
  }

  lemma FoundNext(words: seq<nat>, codes: seq<nat>, limit: nat, code: nat)
    requires Found(words, codes, limit) && limit <= code && HasCode(words, code)
    requires forall c: nat :: limit <= c < code ==> !HasCode(words, c)
    ensures Found(words, Appended(codes, code), code + 1)
  {
    var next := Appended(codes, code);
    forall i, j | 0 <= i < j < |next| ensures next[i] < next[j] {
      assert next[i] in codes;
    }
    forall c: nat ensures c in next <==> c < code + 1 && c <= U16_MAX && HasCode(words, c) {
      assert c in next <==> c in codes || (code <= U16_MAX && c == code);
    }
  }

  lemma FoundSkip(words: seq<nat>, codes: seq<nat>, limit: nat, end: nat)
    requires Found(words, codes, limit) && limit <= end
    requires forall c: nat :: limit <= c < end ==> !HasCode(words, c)
    ensures Found(words, codes, end)
  {
    forall c: nat ensures c in codes <==> c < end && c <= U16_MAX && HasCode(words, c) {
    }
  }

  /** The bits of word `index` still to come, when those below `done` have been handled. */
  ghost predicate Remaining(whole: nat, left: nat, done: nat) {
    forall k: nat :: Bit(left, k) <==> Bit(whole, k) && k >= done
  }

  lemma CodeOf(words: seq<nat>, index: nat, k: nat)
    requires index < |words| && k < WORD_BITS
    ensures HasCode(words, index * WORD_BITS + k) <==> Bit(words[index], k)
  {
    assert (index * WORD_BITS + k) / WORD_BITS == index && (index * WORD_BITS + k) % WORD_BITS == k;
  }

  /** No code of word `index` lies in a range of bits that are clear. */
  lemma ClearRange(words: seq<nat>, index: nat, whole: nat, from: nat, to: nat)
    requires index < |words| && from <= to <= WORD_BITS && whole == words[index]
    requires forall k: nat :: from <= k < to ==> !Bit(whole, k)
    ensures forall c: nat :: index * WORD_BITS + from <= c < index * WORD_BITS + to ==> !HasCode(words, c)
  {
    forall c: nat | index * WORD_BITS + from <= c < index * WORD_BITS + to ensures !HasCode(words, c) {
      CodeOf(words, index, c - index * WORD_BITS);
    }
  }

  lemma TakeLowest(whole: nat, left: nat, done: nat)
    requires left > 0 && whole <= U64_MAX && Remaining(whole, left, done)
    ensures var k := TrailingZeros(left);
            && done <= k < WORD_BITS && Bit(whole, k)
            && (forall j: nat :: done <= j < k ==> !Bit(whole, j))
            && Remaining(whole, ClearLowest(left), k + 1)
  {
    var k := TrailingZeros(left);
    LowestBit(left, k);
    SixtyFour(WORD_BITS);
    if k >= WORD_BITS {
      HighBitsClear(whole, WORD_BITS, k);
    }
    forall j: nat ensures done <= j < k ==> !Bit(whole, j)
      ensures Bit(ClearLowest(left), j) <==> Bit(whole, j) && j >= k + 1
    {
      LowestBit(left, j);
    }
  }

  /** Where the scan of a word stands: codes found so far, and the bits still to come. */
  ghost predicate Scanning(words: seq<nat>, index: nat, codes: seq<nat>, word: nat, done: nat) {
    && index < |words| && done <= WORD_BITS
    && Remaining(words[index], word, done)
    && Found(words, codes, index * WORD_BITS + done)
  }

  lemma ScanStart(words: seq<nat>, index: nat, codes: seq<nat>)
    requires index < |words| && Found(words, codes, index * WORD_BITS)
    ensures Scanning(words, index, codes, words[index], 0)
  {
  }

  lemma ScanFound(words: seq<nat>, index: nat, codes: seq<nat>, done: nat, k: nat)
    requires index < |words| && done <= k < WORD_BITS && Found(words, codes, index * WORD_BITS + done)
    requires Bit(words[index], k) && forall j: nat :: done <= j < k ==> !Bit(words[index], j)
    ensures Found(words, Appended(codes, index * WORD_BITS + k), index * WORD_BITS + (k + 1))
  {
    ClearRange(words, index, words[index], done, k);
    CodeOf(words, index, k);
    FoundNext(words, codes, index * WORD_BITS + done, index * WORD_BITS + k);
  }

  lemma ScanNext(words: seq<nat>, index: nat, codes: seq<nat>, word: nat, done: nat, k: nat, rest: nat)
    requires Scanning(words, index, codes, word, done) && word > 0 && words[index] <= U64_MAX
    requires k == TrailingZeros(word) && rest == ClearLowest(word)
    ensures Scanning(words, index, Appended(codes, index * WORD_BITS + k), rest, k + 1)
  {
    TakeLowest(words[index], word, done);
    ScanFound(words, index, codes, done, k);
  }

  lemma ScanDone(words: seq<nat>, index: nat, codes: seq<nat>, done: nat)
    requires Scanning(words, index, codes, 0, done)
    ensures Found(words, codes, (index + 1) * WORD_BITS)
  {
    var whole := words[index];
    forall k: nat | done <= k < WORD_BITS ensures !Bit(whole, k) {
      NoBits(k);
    }
    ClearRange(words, index, whole, done, WORD_BITS);
    FoundSkip(words, codes, index * WORD_BITS + done, (index + 1) * WORD_BITS);
  }

  /** Saturation changes nothing: a saturated code is beyond 16 bits anyway. */
  lemma SaturationIsHarmless(codes: seq<nat>, index: nat, bit: nat)
    ensures Appended(codes, Saturating(Saturating(index * WORD_BITS) + bit)) == Appended(codes, index * WORD_BITS + bit)
  {
  }

  /** One turn of the inner loop: the lowest bit left becomes a code. */
  method TakeBit(words: seq<nat>, index: nat, codes: seq<nat>, word: nat, ghost done: nat)
    returns (r: seq<nat>, left: nat, ghost next: nat)
    requires Scanning(words, index, codes, word, done) && word > 0 && words[index] <= U64_MAX
    ensures Scanning(words, index, r, left, next) && left < word
  {
    var bit := TrailingZeros(word);
    var code := Saturating(Saturating(index * WORD_BITS) + bit);
    ScanNext(words, index, codes, word, done, bit, ClearLowest(word));
    SaturationIsHarmless(codes, index, bit);
    r := if code <= U16_MAX then codes + [code] else codes;
    left, next := ClearLowest(word), bit + 1;
  }

  /** The codes of one word, added to those of the words below it. */
  method WordCodes(words: seq<nat>, index: nat, codes: seq<nat>) returns (r: seq<nat>)
    requires index < |words| && words[index] <= U64_MAX && Found(words, codes, index * WORD_BITS)
    ensures Found(words, r, (index + 1) * WORD_BITS)
  {
    r := codes;
    var word := words[index];
    ghost var done: nat := 0;
    ScanStart(words, index, r);
    while word != 0
      invariant Scanning(words, index, r, word, done)
    {
      r, word, done := TakeBit(words, index, r, word, done);
    }
    ScanDone(words, index, r, done);
  }

  /** `bitmap_codes`: the final sort has nothing to do, because the codes come out ascending. */
  method BitmapCodes(value: string) returns (codes: seq<nat>)
    ensures StrictlyAscending(codes)
    ensures forall c: nat :: c in codes <==> c <= U16_MAX && HasCode(Words(value), c)
  {
    codes := [];
    var words := Words(value);
    for index := 0 to |words|
      invariant Found(words, codes, index * WORD_BITS)
    {
      codes := WordCodes(words, index, codes);
    }
  }

  /** A digit of sixteen is four bits, so a word that fits means the bits its digits spell. */
  lemma {:induction false} WordBits(s: string, k: nat)
    requires forall i :: 0 <= i < |s| ==> IsHex(s[i])
    ensures Bit(HexValue(s), k) <==> k / 4 < |s| && Bit(HexDigit(s[|s| - 1 - k / 4]), k % 4)
  {
    if s == [] {
      NoBits(k);
    } else {
      var high, low := HexValue(s[..|s| - 1]), HexDigit(s[|s| - 1]);
      NibbleBits(high, low, k);
      if k >= 4 {
        WordBits(s[..|s| - 1], k - 4);
      }
    }
  }

  lemma NibbleBits(high: nat, low: nat, k: nat)
    requires low < 16
    ensures Bit(16 * high + low, k) <==> if k < 4 then Bit(low, k) else Bit(high, k - 4)
  {
    var w := 16 * high + low;
    assert w / 2 == 8 * high + low / 2;
    assert w / 2 / 2 == 4 * high + low / 2 / 2;
    assert w / 2 / 2 / 2 == 2 * high + low / 2 / 2 / 2;
    assert w / 2 / 2 / 2 / 2 == high;
    if k > 0 {
      assert Bit(w, k) == Bit(w / 2, k - 1) && Bit(low, k) == Bit(low / 2, k - 1);
      if k > 1 {
        assert Bit(w, k) == Bit(w / 2 / 2, k - 2) && Bit(low, k) == Bit(low / 2 / 2, k - 2);
        if k > 2 {
          assert Bit(w, k) == Bit(w / 2 / 2 / 2, k - 3) && Bit(low, k) == Bit(low / 2 / 2 / 2, k - 3);
        }
      }
    }
  }
}
