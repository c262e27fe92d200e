/**
One-time password secrets (frontend/src/lib/totp.js): the base32 decoder, whose
accumulator is a 32-bit word that is shifted and never masked, and the
big-endian counter. Section 6 of RFC 4648 fixes the encoding it must invert.
*/
module Totp {
  import opened Arithmetic
  import opened Wrappers
  import opened ByteStrings

  const ALPHABET := "ABCDEFGHIJKLMNOPQRSTUVWXYZ234567"

  type Bits = seq<bool>

  // ----- Normalising the secret ---------------------------------------------------

  predicate White(c: char) {
    || '\t' <= c <= '\r' || c == ' ' || c == '\U{00a0}' || c == '\U{1680}' || '\U{2000}' <= c <= '\U{200a}'
    || c == '\U{2028}' || c == '\U{2029}' || c == '\U{202f}' || c == '\U{205f}' || c == '\U{3000}' || c == '\U{feff}'
  }

  /** Upper case as far as it can reach the alphabet: a character whose upper
      case has a character outside it is refused either way. */
  function Upper(c: char): string {
    if 'a' <= c <= 'z' then [c - 'a' + 'A']
    else if c == '\U{0131}' then "I"
    else if c == '\U{017f}' then "S"
    else if c == '\U{00df}' then "SS"
    else if c == '\U{fb00}' then "FF"
    else if c == '\U{fb01}' then "FI"
    else if c == '\U{fb02}' then "FL"
    else if c == '\U{fb03}' then "FFI"
    else if c == '\U{fb04}' then "FFL"
    else if c == '\U{fb05}' || c == '\U{fb06}' then "ST"
    else [c]
  }

  function Unpadded(s: string): string {
    if s != "" && s[|s| - 1] == '=' then Unpadded(s[..|s| - 1]) else s
  }

  function Compact(s: string): string {
    if s == "" then "" else (if White(s[0]) then "" else Upper(s[0])) + Compact(s[1..])
  }

  /** Padding goes first, so padding before trailing white space stays. */
  function Clean(secret: string): string { Compact(Unpadded(secret)) }

  function IndexFrom(c: char, i: nat): int
    requires i <= 32
    decreases 32 - i
  {
    if i == 32 then -1 else if ALPHABET[i] == c then i else IndexFrom(c, i + 1)
  }

  function IndexOf(c: char): int { IndexFrom(c, 0) }

  lemma {:induction false} IndexFromFinds(c: char, i: nat, k: nat)
    requires i <= k < 32 && ALPHABET[k] == c && forall j :: i <= j < k ==> ALPHABET[j] != c
    ensures IndexFrom(c, i) == k
    decreases k - i
  {
    if i < k { IndexFromFinds(c, i + 1, k); }
  }

  lemma {:induction false} IndexFromHolds(c: char, i: nat)
    requires i <= 32
    ensures -1 <= IndexFrom(c, i) < 32
    ensures IndexFrom(c, i) >= 0 ==> ALPHABET[IndexFrom(c, i)] == c
    decreases 32 - i
  {
    if i < 32 { IndexFromHolds(c, i + 1); }
  }

  // ----- Words and bits -------------------------------------------------------------

  function Pow2(n: nat): (p: nat)
    ensures p > 0
  {
    if n == 0 then 1 else 2 * Pow2(n - 1)
  }

  function ShiftRight(v: nat, k: nat): nat {
    if k == 0 then v else ShiftRight(v / 2, k - 1)
  }

  /** The last `n` bits of a number, most significant first. */
  function Low(v: nat, n: nat): (bits: Bits)
    ensures |bits| == n
  {
    if n == 0 then [] else Low(v / 2, n - 1) + [v % 2 == 1]
  }

  lemma HalfOfQuotient(v: nat, p: nat)
    requires p > 0
    ensures (v / 2) / p == v / (2 * p) && (v % (2 * p)) / 2 == (v / 2) % p && (v % (2 * p)) % 2 == v % 2
  {
    var q, r := v / (2 * p), v % (2 * p);
    assert v == q * (2 * p) + r;
    assert v / 2 == q * p + r / 2 by { assert v == 2 * (q * p) + r; }
    Quotient(q, p, r / 2);
  }

  lemma Associates(a: Bits, b: Bits, c: Bits)
    ensures (a + b) + c == a + (b + c)
  {
  }

  lemma LowHalf(v: nat, n: nat, k: nat, high: Bits)
    requires Low(v / 2, n + k) == high + Low(v / 2, k)
    ensures Low(v, n + k + 1) == high + Low(v, k + 1)
  {
    assert (high + Low(v / 2, k)) + [v % 2 == 1] == high + (Low(v / 2, k) + [v % 2 == 1]);
  }

  /** The bits split where the number does. */
  lemma {:induction false} LowSplits(v: nat, n: nat, k: nat)
    ensures Low(v, n + k) == Low(ShiftRight(v, k), n) + Low(v, k)
    decreases k
  {
    if k == 0 {
      assert Low(v, n) == Low(v, n) + [];
    } else {
      LowSplits(v / 2, n, k - 1);
      LowHalf(v, n, k - 1, Low(ShiftRight(v, k), n));
    }
  }

  /** A word keeps the bits that fit in it. */
  lemma {:induction false} LowWraps(v: nat, m: nat, n: nat)
    requires n <= m
    ensures Low(v % Pow2(m), n) == Low(v, n)
    decreases n
  {
    if n > 0 {
      HalfOfQuotient(v, Pow2(m - 1));
      LowWraps(v / 2, m - 1, n - 1);
    }
  }

  lemma {:induction false} LowInjective(v: nat, w: nat, n: nat)
    requires v < Pow2(n) && w < Pow2(n) && Low(v, n) == Low(w, n)
    ensures v == w
    decreases n
  {
    if n > 0 {
      assert Low(v, n)[n - 1] == (v % 2 == 1) && Low(w, n)[n - 1] == (w % 2 == 1);
      assert Low(v, n)[..n - 1] == Low(v / 2, n - 1) && Low(w, n)[..n - 1] == Low(w / 2, n - 1);
      LowInjective(v / 2, w / 2, n - 1);
    }
  }

  function ByteBits(bytes: Bytes): (bits: Bits)
    ensures |bits| == 8 * |bytes|
  {
    if bytes == [] then [] else ByteBits(bytes[..|bytes| - 1]) + Low(bytes[|bytes| - 1], 8)
  }

  function GroupBits(indices: seq<nat>): (bits: Bits)
    ensures |bits| == 5 * |indices|
  {
    if indices == [] then [] else GroupBits(indices[..|indices| - 1]) + Low(indices[|indices| - 1], 5)
  }

  lemma {:induction false} ByteBitsInjective(a: Bytes, b: Bytes)
    requires ByteBits(a) == ByteBits(b)
    ensures a == b
  {
    if a != [] {
      var n := |a| - 1;
      assert ByteBits(a)[8 * n..] == Low(a[n], 8) && ByteBits(b)[8 * n..] == Low(b[n], 8);
      assert ByteBits(a)[..8 * n] == ByteBits(a[..n]) && ByteBits(b)[..8 * n] == ByteBits(b[..n]);
      assert Pow2(8) == 256;
      LowInjective(a[n], b[n], 8);
      ByteBitsInjective(a[..n], b[..n]);
      assert a == a[..n] + [a[n]] && b == b[..n] + [b[n]];
    }
  }

  // ----- Decoding -----------------------------------------------------------------------

  predicate Decodable(clean: string) { forall i :: 0 <= i < |clean| ==> IndexOf(clean[i]) >= 0 }

  function Indices(clean: string): seq<nat>
    requires Decodable(clean)
  {
    seq(|clean|, i requires 0 <= i < |clean| => IndexOf(clean[i]))
  }

  /** The bytes are the whole bytes of the bits: fewer than eight are left. */
  predicate WholeBytes(bits: Bits, bytes: Bytes) {
    ByteBits(bytes) <= bits && |bits| < 8 * |bytes| + 8
  }

  lemma OneReading(bits: Bits, a: Bytes, b: Bytes)
    requires WholeBytes(bits, a) && WholeBytes(bits, b)
    ensures a == b
  {
    assert |a| == |b|;
    assert ByteBits(a) == bits[..8 * |a|] == ByteBits(b);
    ByteBitsInjective(a, b);
  }

  /** `(value << 5) | index` of a 32-bit word: the shifted word ends in five
      zero bits, so the index is added. */
  function ShiftIn(value: nat, index: nat): nat {
    (value * 32) % UINT32_LIMIT + index
  }

  lemma ShiftInBits(value: nat, index: nat, n: nat)
    requires index < 32 && n <= 27
    ensures Low(ShiftIn(value, index), n + 5) == Low(value, n) + Low(index, 5)
  {
    ShiftInParts(value, index);
    PowersOfTwo();
    var w := ShiftIn(value, index);
    LowSplits(w, n, 5);
    LowWraps(value, 27, n);
    LowWraps(w, 5, 5);
  }

  lemma ShiftRightFive(w: nat)
    ensures ShiftRight(w, 5) == w / 32
  {
    assert ShiftRight(w, 5) == ShiftRight(w / 2, 4);
    assert ShiftRight(w / 2, 4) == ShiftRight(w / 2 / 2, 3);
    assert ShiftRight(w / 2 / 2, 3) == ShiftRight(w / 2 / 2 / 2, 2);
    assert ShiftRight(w / 2 / 2 / 2, 2) == w / 2 / 2 / 2 / 2 / 2;
  }

  lemma ShiftInParts(value: nat, index: nat)
    requires index < 32
    ensures ShiftRight(ShiftIn(value, index), 5) == value % 0x800_0000
    ensures ShiftIn(value, index) % 32 == index
  {
    var w := ShiftIn(value, index);
    assert w == 32 * (value % 0x800_0000) + index;
    ShiftRightFive(w);
  }

  lemma PowersOfTwo()
    ensures Pow2(5) == 32 && Pow2(8) == 256 && Pow2(27) == 0x800_0000
  {
    assert Pow2(9) == 512;
    assert Pow2(18) == 0x4_0000;
  }

  /** `(value >>> k) & 0xff`. */
  function TopByte(value: nat, k: nat): Byte { ShiftRight(value, k) % 256 }

  lemma ByteOut(value: nat, k: nat)
    ensures Low(value, k + 8) == Low(TopByte(value, k), 8) + Low(value, k)
  {
    LowSplits(value, 8, k);
    PowersOfTwo();
    LowWraps(ShiftRight(value, k), 8, 8);
  }

  lemma GroupBitsAppend(indices: seq<nat>, index: nat)
    ensures GroupBits(indices + [index]) == GroupBits(indices) + Low(index, 5)
  {
    assert (indices + [index])[..|indices|] == indices;
  }

  lemma ByteBitsAppend(bytes: Bytes, byte: Byte)
    ensures ByteBits(bytes + [byte]) == ByteBits(bytes) + Low(byte, 8)
  {
    assert (bytes + [byte])[..|bytes|] == bytes;
  }

  /** The bytes put out and the pending bits are the bits read so far. */
  predicate HasRead(bytes: Bytes, value: nat, bits: nat, read: Bits) {
    ByteBits(bytes) + Low(value, bits) == read
  }

  lemma ReadsGroup(bytes: Bytes, value: nat, bits: nat, indices: seq<nat>, index: nat)
    requires HasRead(bytes, value, bits, GroupBits(indices)) && bits <= 7 && index < 32
    ensures HasRead(bytes, ShiftIn(value, index), bits + 5, GroupBits(indices + [index]))
  {
    ShiftInBits(value, index, bits);
    GroupBitsAppend(indices, index);
    Associates(ByteBits(bytes), Low(value, bits), Low(index, 5));
  }

  lemma PutsByteOut(bytes: Bytes, value: nat, bits: nat, read: Bits)
    requires HasRead(bytes, value, bits + 8, read)
    ensures HasRead(bytes + [TopByte(value, bits)], value, bits, read)
  {
    var byte := TopByte(value, bits);
    ByteOut(value, bits);
    ByteBitsAppend(bytes, byte);
    Associates(ByteBits(bytes), Low(byte, 8), Low(value, bits));
  }

  lemma DoneReading(bytes: Bytes, value: nat, bits: nat, read: Bits)
    requires HasRead(bytes, value, bits, read) && bits < 8
    ensures WholeBytes(read, bytes)
  {
  }

  lemma OneMoreIndex(clean: string, i: nat, index: nat)
    requires i < |clean| && Decodable(clean[..i]) && IndexOf(clean[i]) == index
    ensures Decodable(clean[..i + 1])
    ensures Indices(clean[..i + 1]) == Indices(clean[..i]) + [index]
  {
  }

  /** One pass of the decoder's loop. */
  method TakeGroup(bytes: Bytes, value: nat, bits: nat, index: nat, ghost indices: seq<nat>)
    returns (bytes': Bytes, value': nat, bits': nat)
    requires bits < 8 && index < 32 && HasRead(bytes, value, bits, GroupBits(indices))
    ensures bits' < 8 && HasRead(bytes', value', bits', GroupBits(indices + [index]))
  {
    ReadsGroup(bytes, value, bits, indices, index);
    bytes', value', bits' := bytes, ShiftIn(value, index), bits + 5;
    if bits' >= 8 {
      bits' := bits' - 8;
      PutsByteOut(bytes, value', bits', GroupBits(indices + [index]));
      bytes' := bytes + [TopByte(value', bits')];
    }
  }

  method Base32Decode(secret: string) returns (r: Result<Bytes, ()>)
    ensures r.Ok? <==> Decodable(Clean(secret))
    ensures r.Ok? ==> WholeBytes(GroupBits(Indices(Clean(secret))), r.value)
  {
    var clean := Clean(secret);
    var bytes: Bytes := [];
    var bits: nat := 0;
    var value: nat := 0;
    for i := 0 to |clean|
      invariant bits < 8 && Decodable(clean[..i])
      invariant HasRead(bytes, value, bits, GroupBits(Indices(clean[..i])))
    {
      var index := IndexOf(clean[i]);
      IndexFromHolds(clean[i], 0);
      if index == -1 { return Err(()); }
      OneMoreIndex(clean, i, index);
      bytes, value, bits := TakeGroup(bytes, value, bits, index, Indices(clean[..i]));
    }
    assert clean[..|clean|] == clean;
    DoneReading(bytes, value, bits, GroupBits(Indices(clean)));
    return Ok(bytes);
  }

  // ----- Encoding (section 6 of RFC 4648) --------------------------------------------

  /** Bits taken five at a time, the last group filled up with zero bits. */
  function Groups(bits: Bits): (indices: seq<nat>)
    ensures forall i :: 0 <= i < |indices| ==> indices[i] < 32
  {
    if bits == [] then []
    else if |bits| < 5 then [Group(Filled(bits))]
    else [Group(bits[..5])] + Groups(bits[5..])
  }

  function Filled(bits: Bits): (filled: Bits)
    requires |bits| <= 5
    ensures |filled| == 5 && bits <= filled
  {
    bits + seq(5 - |bits|, i => false)
  }

  function Group(bits: Bits): (index: nat)
    requires |bits| == 5
    ensures index < 32 && Low(index, 5) == bits
  {
    PowersOfTwo();
    Number(bits)
  }

  function Number(bits: Bits): (v: nat)
    ensures v < Pow2(|bits|) && Low(v, |bits|) == bits
  {
    if bits == [] then 0 else
      var n := |bits| - 1;
      assert bits == bits[..n] + [bits[n]];
      2 * Number(bits[..n]) + (if bits[n] then 1 else 0)
  }

  function Spelled(indices: seq<nat>): (s: string)
    requires forall i :: 0 <= i < |indices| ==> indices[i] < 32
    ensures |s| == |indices|
  {
    seq(|indices|, i requires 0 <= i < |indices| => ALPHABET[indices[i]])
  }

  function Padding(n: nat): (s: string)
    ensures |s| == n && forall i :: 0 <= i < n ==> s[i] == '='
  {
    if n == 0 then "" else Padding(n - 1) + "="
  }

  /** Without padding; `Encoded` fills up to whole blocks of eight. */
  function Unblocked(bytes: Bytes): string { Spelled(Groups(ByteBits(bytes))) }

  function Encoded(bytes: Bytes): string {
    Unblocked(bytes) + Padding((8 - |Unblocked(bytes)| % 8) % 8)
  }

  lemma {:induction false} GroupsHold(bits: Bits)
    ensures bits <= GroupBits(Groups(bits))
    ensures |Groups(bits)| == (|bits| + 4) / 5
    decreases |bits|
  {
    if bits == [] {
    } else if |bits| < 5 {
      GroupBitsPrepend(Group(Filled(bits)), []);
      assert [Group(Filled(bits))] + [] == Groups(bits);
    } else {
      GroupsHold(bits[5..]);
      GroupBitsPrepend(Group(bits[..5]), Groups(bits[5..]));
      assert bits == bits[..5] + bits[5..];
    }
  }

  lemma {:induction false} GroupBitsPrepend(index: nat, indices: seq<nat>)
    ensures GroupBits([index] + indices) == Low(index, 5) + GroupBits(indices)
  {
    if indices == [] {
      assert [index] + indices == [] + [index];
      GroupBitsAppend([], index);
    } else {
      var n := |indices| - 1;
      GroupBitsPrepend(index, indices[..n]);
      assert ([index] + indices)[..n + 1] == [index] + indices[..n];
      Associates(Low(index, 5), GroupBits(indices[..n]), Low(indices[n], 5));
    }
  }

  lemma BlockArithmetic(n: nat)
    ensures var padding := (8 - (8 * n + 4) / 5 % 8) % 8;
            && ((8 * n + 4) / 5 + padding) % 8 == 0
            && padding == [0, 6, 4, 3, 1][n % 5]
  {
    var q, r := n / 5, n % 5;
    assert n == 5 * q + r && 8 * n + 4 == 5 * (8 * q) + (8 * r + 4);
    assert (8 * n + 4) / 5 == 8 * q + (8 * r + 4) / 5;
    if r == 0 { assert (8 * n + 4) / 5 == 8 * q; }
    else if r == 1 { assert (8 * n + 4) / 5 == 8 * q + 2; }
    else if r == 2 { assert (8 * n + 4) / 5 == 8 * q + 4; }
    else if r == 3 { assert (8 * n + 4) / 5 == 8 * q + 5; }
    else { assert (8 * n + 4) / 5 == 8 * q + 7; }
  }

  /** The four padded cases and the unpadded one of the standard. */
  lemma PaddingCases(bytes: Bytes)
    ensures |Encoded(bytes)| % 8 == 0
    ensures |Encoded(bytes)| - |Unblocked(bytes)| == [0, 6, 4, 3, 1][|bytes| % 5]
  {
    GroupsHold(ByteBits(bytes));
    BlockArithmetic(|bytes|);
  }

  predicate Plain(s: string) { forall i :: 0 <= i < |s| ==> s[i] in ALPHABET }

  lemma AlphabetRange(c: char)
    requires c in ALPHABET
    ensures 'A' <= c <= 'Z' || '2' <= c <= '7'
  {
  }

  lemma PlainIsClean(c: char)
    requires 'A' <= c <= 'Z' || '2' <= c <= '7'
    ensures !White(c) && Upper(c) == [c] && c != '='
  {
  }

  /** `t` is `s` with some letters in lower case and white space put in. */
  predicate Respells(t: string, s: string) {
    if t == "" then s == ""
    else if White(t[0]) then Respells(t[1..], s)
    else s != "" && (t[0] == s[0] || ('A' <= s[0] <= 'Z' && t[0] == s[0] - 'A' + 'a')) && Respells(t[1..], s[1..])
  }

  lemma {:induction false} CompactRespelled(t: string, s: string)
    requires Plain(s) && Respells(t, s)
    ensures Compact(t) == s
  {
    if t != "" {
      if White(t[0]) {
        CompactRespelled(t[1..], s);
        assert Compact(t) == "" + Compact(t[1..]);
      } else {
        AlphabetRange(s[0]);
        PlainIsClean(s[0]);
        assert Upper(t[0]) == [s[0]];
        CompactRespelled(t[1..], s[1..]);
        assert s == [s[0]] + s[1..];
      }
    }
  }

  lemma {:induction false} RespelledUnpadded(t: string, s: string)
    requires Plain(s) && Respells(t, s)
    ensures '=' !in t
  {
    if t != "" {
      if White(t[0]) {
        RespelledUnpadded(t[1..], s);
      } else {
        AlphabetRange(s[0]);
        RespelledUnpadded(t[1..], s[1..]);
      }
      assert t == [t[0]] + t[1..];
    }
  }

  lemma {:induction false} Unpads(t: string, n: nat)
    requires '=' !in t
    ensures Unpadded(t + Padding(n)) == t
  {
    var padded := t + Padding(n);
    if n == 0 {
      assert padded == t;
    } else {
      assert padded[..|padded| - 1] == t + Padding(n - 1);
      Unpads(t, n - 1);
    }
  }

  lemma RespelledCleans(t: string, s: string, n: nat)
    requires Plain(s) && Respells(t, s)
    ensures Clean(t + Padding(n)) == s
  {
    RespelledUnpadded(t, s);
    Unpads(t, n);
    CompactRespelled(t, s);
  }

  lemma {:induction false} PlainRespells(s: string)
    requires Plain(s)
    ensures Respells(s, s)
  {
    if s != "" {
      AlphabetRange(s[0]);
      PlainIsClean(s[0]);
      PlainRespells(s[1..]);
    }
  }

  lemma AlphabetIndex(k: nat)
    requires k < 32
    ensures IndexOf(ALPHABET[k]) == k
  {
    IndexFromFinds(ALPHABET[k], 0, k);
  }

  lemma SpelledIndices(indices: seq<nat>)
    requires forall i :: 0 <= i < |indices| ==> indices[i] < 32
    ensures Plain(Spelled(indices)) && Decodable(Spelled(indices)) && Indices(Spelled(indices)) == indices
  {
    forall i | 0 <= i < |indices| ensures IndexOf(Spelled(indices)[i]) == indices[i] {
      AlphabetIndex(indices[i]);
    }
  }

  /** Whatever the secret's spelling, if it cleans to an encoding of `bytes`,
      `bytes` is the only result the decoder may return. */
  lemma DecodesEncoding(bytes: Bytes, secret: string, result: Bytes)
    requires Clean(secret) == Unblocked(bytes)
    ensures Decodable(Clean(secret))
    ensures WholeBytes(GroupBits(Indices(Clean(secret))), result) <==> result == bytes
  {
    var bits := ByteBits(bytes);
    SpelledIndices(Groups(bits));
    GroupsHold(bits);
    if WholeBytes(GroupBits(Groups(bits)), result) { OneReading(GroupBits(Groups(bits)), result, bytes); }
  }

  /** Decoding inverts encoding: with the standard's padding, with none or
      with any other, in any mix of case, with white space anywhere before
      the padding. */
  method DecodeEncoded(bytes: Bytes, spelled: string, padding: nat) returns (r: Result<Bytes, ()>)
    requires Respells(spelled, Unblocked(bytes))
    ensures r == Ok(bytes)
  {
    SpelledIndices(Groups(ByteBits(bytes)));
    RespelledCleans(spelled, Unblocked(bytes), padding);
    var secret := spelled + Padding(padding);
    r := Base32Decode(secret);
    DecodesEncoding(bytes, secret, if r.Ok? then r.value else []);
  }

  /** An encoding is a spelling of itself. */
  lemma SpellsItself(bytes: Bytes)
    ensures Respells(Unblocked(bytes), Unblocked(bytes))
  {
    SpelledIndices(Groups(ByteBits(bytes)));
    PlainRespells(Unblocked(bytes));
  }

  // ----- The counter ----------------------------------------------------------------------

  function BigEndian(message: Bytes): (n: nat) {
    if message == [] then 0
    else 256 * BigEndian(message[..|message| - 1]) + message[|message| - 1]
  }

  /** A number as a message of `n` bytes, two's complement when negative. */
  function CounterBytes(counter: int, n: nat): (message: Bytes)
    ensures |message| == n
    decreases n
  {
    if n == 0 then [] else CounterBytes(counter / 256, n - 1) + [counter % 256]
  }

  lemma {:induction false} CounterBytesMean(counter: nat, n: nat, limit: nat)
    requires limit == Pow2(8 * n) && counter < limit
    ensures BigEndian(CounterBytes(counter, n)) == counter
    decreases n
  {
    if n > 0 {
      var m := CounterBytes(counter, n);
      assert m[..n - 1] == CounterBytes(counter / 256, n - 1);
      assert limit == 256 * Pow2(8 * (n - 1)) by { EightTwos(8 * (n - 1)); }
      CounterBytesMean(counter / 256, n - 1, Pow2(8 * (n - 1)));
    }
  }

  lemma EightTwos(k: nat)
    ensures Pow2(k + 8) == 256 * Pow2(k)
  {
    assert Pow2(k + 2) == 4 * Pow2(k);
    assert Pow2(k + 4) == 4 * Pow2(k + 2);
    assert Pow2(k + 6) == 4 * Pow2(k + 4);
    assert Pow2(k + 8) == 4 * Pow2(k + 6);
  }

  /** The message that is authenticated. */
  method CounterMessage(count: int) returns (message: array<Byte>)
    ensures message[..] == CounterBytes(count, 8)
    ensures 0 <= count < Pow2(64) ==> BigEndian(message[..]) == count
  {
    message := new Byte[8];
    var counter := count;
    var i := 7;
    while i >= 0
      invariant -1 <= i <= 7
      invariant CounterBytes(count, 8) == CounterBytes(counter, i + 1) + message[i + 1..]
    {
      ghost var rest := message[i + 1..];
      message[i] := counter % 256;
      assert message[i..] == [counter % 256] + rest;
      counter := counter / 256;
      i := i - 1;
    }
    assert message[..] == message[0..];
    if 0 <= count < Pow2(64) { CounterBytesMean(count, 8, Pow2(64)); }
  }
}
