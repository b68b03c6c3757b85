/**
 The two decoders of a getService return (client/chain/registry.go:376-477). The bytes come from an RPC
 endpoint and may be anything; offsets are 64-bit and wrap around. `Encoded` is the Solidity Contract ABI
 Specification's encoding of the Service tuple (section "Formal Specification of the Encoding").
 */
module Abi {
  import opened Wrappers

  type Byte = x: int | 0 <= x < 256 witness 0
  type Bytes = seq<Byte>

  const WORD := 32
  const FIELDS := 11
  const TWO64 := 0x1_0000_0000_0000_0000

  /** A slice's length is an int. */
  const MAX_LEN := 0x8000_0000_0000_0000

  type Raw = b: Bytes | |b| < MAX_LEN witness []

  // ---------------------------------------------------------------- Words

  /** big.Int.SetBytes. */
  function Value(w: Bytes): nat {
    if w == [] then 0 else Value(w[..|w| - 1]) * 256 + w[|w| - 1]
  }

  /** n in k bytes, the most significant first. */
  function Digits(n: nat, k: nat): (w: Bytes)
    ensures |w| == k
  {
    if k == 0 then [] else Digits(n / 256, k - 1) + [n % 256]
  }

  function Pow256(k: nat): (p: nat)
    ensures p > 0
  {
    if k == 0 then 1 else 256 * Pow256(k - 1)
  }

  lemma {:induction false} ValueOfDigits(n: nat, k: nat)
    requires n < Pow256(k)
    ensures Value(Digits(n, k)) == n
    decreases k
  {
    if k > 0 {
      var w := Digits(n, k);
      assert w[..k - 1] == Digits(n / 256, k - 1) && w[k - 1] == n % 256;
      ValueOfDigits(n / 256, k - 1);
    }
  }

  lemma {:induction false} PowGrows(j: nat, k: nat)
    requires j <= k
    ensures Pow256(j) <= Pow256(k)
    decreases k
  {
    if j < k {
      PowGrows(j, k - 1);
    }
  }

  lemma EightBytes()
    ensures Pow256(8) == TWO64
  {
    assert Pow256(1) == 256;
    assert Pow256(2) == 0x1_0000;
    assert Pow256(3) == 0x100_0000;
    assert Pow256(4) == 0x1_0000_0000;
    assert Pow256(5) == 0x100_0000_0000;
    assert Pow256(6) == 0x1_0000_0000_0000;
    assert Pow256(7) == 0x100_0000_0000_0000;
  }

  function Word(n: nat): (w: Bytes)
    ensures |w| == WORD
  {
    Digits(n, WORD)
  }

  lemma ValueOfWord(n: nat)
    requires n < TWO64
    ensures Value(Word(n)) == n
  {
    hide Pow256;
    EightBytes();
    PowGrows(8, WORD);
    ValueOfDigits(n, WORD);
  }

  // ---------------------------------------------------------------- The decoders

  function Add64(a: nat, b: nat): nat { (a + b) % TWO64 }

  /** readWordUint. */
  function ReadWord(raw: Raw, off: nat): (r: Option<nat>)
    requires off < TWO64
    ensures r.Some? ==> off + WORD <= |raw| && r.value < TWO64
  {
    var end := Add64(off, WORD);
    if end < off || |raw| < end then None
    else
      var v := Value(raw[off..end]);
      if v < TWO64 then Some(v) else None
  }

  /** The signer's 20 bytes and whether it is acknowledged. */
  datatype Signer = Signer(address: Bytes, acknowledged: bool)

  predicate AllZero(w: Bytes) { forall i :: 0 <= i < |w| ==> w[i] == 0 }

  method DecodeService(raw: Raw) returns (r: Option<Signer>)
    ensures r == ServiceOf(raw)
  {
    if |raw| < WORD {
      return None;
    }
    var off := Value(raw[..WORD]);
    if off >= TWO64 {
      return None;
    }
    var base := off;
    var end := Add64(base, FIELDS * WORD);
    if end < base || |raw| < end {
      return None;
    }
    var signerWord, ackWord := raw[base + 9 * WORD..base + 10 * WORD], raw[base + 10 * WORD..base + 11 * WORD];
    var i := 0;
    while i < 12
      invariant 0 <= i <= 12 && AllZero(signerWord[..i])
    {
      if signerWord[i] != 0 {
        assert !AllZero(signerWord[..12]) by { assert signerWord[..12][i] != 0; }
        return None;
      }
      assert signerWord[..i + 1] == signerWord[..i] + [signerWord[i]];
      i := i + 1;
    }
    var acknowledged := false;
    i := 0;
    while i < |ackWord|
      invariant 0 <= i <= |ackWord| && AllZero(ackWord[..i]) && !acknowledged
    {
      if ackWord[i] != 0 {
        acknowledged := true;
        break;
      }
      assert ackWord[..i + 1] == ackWord[..i] + [ackWord[i]];
      i := i + 1;
    }
    assert acknowledged <==> !AllZero(ackWord) by {
      if !acknowledged { assert ackWord[..i] == ackWord; }
    }
    r := Some(Signer(signerWord[12..], acknowledged));
  }

  /** What decodeService says, in numbers that do not wrap. */
  function ServiceOf(raw: Raw): Option<Signer> {
    if |raw| < WORD || Value(raw[..WORD]) + FIELDS * WORD > |raw| then None
    else
      var base := Value(raw[..WORD]);
      var signerWord, ackWord := raw[base + 9 * WORD..base + 10 * WORD], raw[base + 10 * WORD..base + 11 * WORD];
      if AllZero(signerWord[..12]) then Some(Signer(signerWord[12..], !AllZero(ackWord))) else None
  }

  /** decodeServiceURL: every offset it adds up may wrap. */
  function DecodeURL(raw: Raw): (r: Option<Bytes>) {
    match ReadWord(raw, 0)
    case None => None
    case Some(base) =>
      match ReadWord(raw, Add64(base, 2 * WORD))
      case None => None
      case Some(rel) =>
        var strStart := Add64(base, rel);
        match ReadWord(raw, strStart)
        case None => None
        case Some(n) =>
          var dataStart := Add64(strStart, WORD);
          var end := Add64(dataStart, n);
          if end < dataStart || |raw| < end then None else Some(raw[dataStart..end])
  }

  // ---------------------------------------------------------------- The decoder without wrap-around

  /** The word at off, in numbers that do not wrap. */
  function WordAt(raw: Bytes, off: nat): (r: Option<nat>)
    ensures r.Some? ==> off + WORD <= |raw| && r.value < TWO64
  {
    if off + WORD <= |raw| && Value(raw[off..off + WORD]) < TWO64 then Some(Value(raw[off..off + WORD])) else None
  }

  function UrlOf(raw: Bytes): Option<Bytes> {
    match WordAt(raw, 0)
    case None => None
    case Some(base) =>
      match WordAt(raw, base + 2 * WORD)
      case None => None
      case Some(rel) =>
        match WordAt(raw, base + rel)
        case None => None
        case Some(n) =>
          var start := base + rel + WORD;
          if start + n <= |raw| then Some(raw[start..start + n]) else None
  }

  /** The bytes of raw at off. */
  predicate IsAt(raw: Bytes, off: nat, part: Bytes) { off + |part| <= |raw| && raw[off..off + |part|] == part }

  /** The word at off says n. */
  predicate SaysAt(raw: Bytes, off: nat, n: nat) { off + WORD <= |raw| && Value(raw[off..off + WORD]) == n }

  const PADDING := [0, 0, 0, 0, 0, 0, 0, 0, 0, 0, 0, 0]

  /**
   The layout that is accepted, and no other: the first word points at the struct, all eleven words of it inside
   the bytes; word 9 is the signer behind twelve zeros, and it is acknowledged unless word 10 is all zero.
   */
  lemma ServiceMeans(raw: Raw, address: Bytes, acknowledged: bool)
    ensures ServiceOf(raw) == Some(Signer(address, acknowledged)) <==>
            exists base: nat ::
              && SaysAt(raw, 0, base) && base + FIELDS * WORD <= |raw|
              && |address| == 20 && IsAt(raw, base + 9 * WORD, PADDING + address)
              && (acknowledged <==> exists i :: base + 10 * WORD <= i < base + 11 * WORD && raw[i] != 0)
  {
    hide Value, AllZero, IsAt;
    if |raw| >= WORD {
      var base := Value(raw[..WORD]);
      assert raw[0..0 + WORD] == raw[..WORD];
      assert SaysAt(raw, 0, base);
      if base + FIELDS * WORD <= |raw| {
        PaddedIsAt(raw, base + 9 * WORD, address);
        AckMeans(raw, base + 10 * WORD);
      }
    }
  }

  /** A word that is an address behind its padding. */
  lemma PaddedIsAt(raw: Bytes, off: nat, address: Bytes)
    requires off + WORD <= |raw|
    ensures var w := raw[off..off + WORD];
            |address| == 20 && IsAt(raw, off, PADDING + address) <==> AllZero(w[..12]) && w[12..] == address
  {
    var w := raw[off..off + WORD];
    assert w == w[..12] + w[12..];
    assert AllZero(w[..12]) <==> w[..12] == PADDING;
    if |address| == 20 {
      assert off + |PADDING + address| == off + WORD;
      assert (PADDING + address)[..12] == PADDING && (PADDING + address)[12..] == address;
    }
  }

  lemma AckMeans(raw: Bytes, off: nat)
    requires off + WORD <= |raw|
    ensures !AllZero(raw[off..off + WORD]) <==> exists i :: off <= i < off + WORD && raw[i] != 0
  {
    var w := raw[off..off + WORD];
    if i :| off <= i < off + WORD && raw[i] != 0 {
      assert w[i - off] != 0;
    }
  }

  /** The struct is at base, word 2 of it points rel further, and there is the length of url and then url. */
  predicate HoldsUrl(raw: Bytes, base: nat, rel: nat, url: Bytes) {
    && SaysAt(raw, 0, base) && SaysAt(raw, base + 2 * WORD, rel) && SaysAt(raw, base + rel, |url|)
    && base < TWO64 && rel < TWO64 && |url| < TWO64 && IsAt(raw, base + rel + WORD, url)
  }

  lemma UrlMeans(raw: Bytes, url: Bytes)
    ensures UrlOf(raw) == Some(url) <==> exists base: nat, rel: nat :: HoldsUrl(raw, base, rel, url)
  {
    hide Value;
    if UrlOf(raw) == Some(url) {
      var base := WordAt(raw, 0).value;
      var rel := WordAt(raw, base + 2 * WORD).value;
      assert HoldsUrl(raw, base, rel, url);
    }
  }

  lemma ReadIsWordAt(raw: Raw, off: nat)
    requires off < TWO64
    ensures ReadWord(raw, off) == WordAt(raw, off)
  {
  }

  /** Both offsets the url is found by point into the bytes. */
  predicate OffsetsInside(raw: Bytes) {
    && WordAt(raw, 0).Some? && WordAt(raw, 0).value <= |raw|
    && WordAt(raw, WordAt(raw, 0).value + 2 * WORD).Some? && WordAt(raw, WordAt(raw, 0).value + 2 * WORD).value <= |raw|
  }

  lemma NoWrap(a: nat, b: nat)
    ensures a + b < TWO64 ==> Add64(a, b) == a + b
  {
  }

  lemma AddMeans(a: nat, b: nat)
    ensures Add64(a, b) == (a + b) % TWO64 && Add64(a, b) < TWO64
  {
  }

  lemma AddWraps(a: nat, b: nat)
    requires a < TWO64 && b < TWO64
    ensures Add64(a, b) == if a + b < TWO64 then a + b else a + b - TWO64
  {
  }

  /** The last sum is the one that is checked. */
  lemma EndWraps(raw: Raw, start: nat, n: nat)
    requires start <= |raw| && n < TWO64
    ensures Add64(start, n) < start || |raw| < Add64(start, n) <==> |raw| < start + n
  {
  }

  /** Beyond the bytes there is no word. */
  lemma NoWordBeyond(raw: Bytes, off: nat)
    requires off > |raw|
    ensures WordAt(raw, off) == None
  {
  }

  /**
   The two offsets add up past 2^64, and what is left over points at a length word whose string lies
   inside the bytes.
   */
  predicate WrapsOntoAString(raw: Bytes) {
    WordAt(raw, 0).Some? &&
    var base := WordAt(raw, 0).value;
    var slot := WordAt(raw, (base + 2 * WORD) % TWO64);
    slot.Some? && base + slot.value >= TWO64 &&
    var at := base + slot.value - TWO64;
    WordAt(raw, at).Some? && at + WORD + WordAt(raw, at).value <= |raw|
  }

  /** Off the bytes, the decoder accepts exactly what wraps onto a string. */
  lemma OutsideWraps(raw: Raw)
    requires !OffsetsInside(raw)
    ensures DecodeURL(raw).Some? <==> WrapsOntoAString(raw)
  {
    hide ReadWord, WordAt, Add64;
    ReadIsWordAt(raw, 0);
    if WordAt(raw, 0).Some? {
      var base := WordAt(raw, 0).value;
      AddMeans(base, 2 * WORD);
      ReadIsWordAt(raw, Add64(base, 2 * WORD));
      var slot := WordAt(raw, Add64(base, 2 * WORD));
      if slot.Some? {
        var at := Add64(base, slot.value);
        AddWraps(base, slot.value);
        ReadIsWordAt(raw, at);
        if base + slot.value < TWO64 {
          NoWordBeyond(raw, at);
        } else if WordAt(raw, at).Some? {
          NoWrap(at, WORD);
          EndWraps(raw, at + WORD, WordAt(raw, at).value);
        }
      }
    }
  }

  lemma InsideIsNoWrap(raw: Raw)
    requires OffsetsInside(raw)
    ensures !WrapsOntoAString(raw)
  {
    hide WordAt;
  }

  /**
   The decoder is the plain one for offsets inside the bytes, and the plain one refuses all others: the
   one check that is missing. The two differ exactly on the bytes whose url offset wraps onto a string.
   */
  lemma UrlWithinBounds(raw: Raw)
    ensures UrlOf(raw) == if OffsetsInside(raw) then DecodeURL(raw) else None
    ensures DecodeURL(raw) == UrlOf(raw) <==> !WrapsOntoAString(raw)
  {
    hide DecodeURL, UrlOf, WrapsOntoAString, OffsetsInside;
    UrlOfOffsets(raw);
    if OffsetsInside(raw) {
      InsideIsNoWrap(raw);
    } else {
      OutsideWraps(raw);
    }
  }

  lemma UrlOfOffsets(raw: Raw)
    ensures UrlOf(raw) == if OffsetsInside(raw) then DecodeURL(raw) else None
  {
    hide ReadWord, WordAt, Add64;
    ReadIsWordAt(raw, 0);
    if WordAt(raw, 0).Some? {
      var base := WordAt(raw, 0).value;
      if base <= |raw| {
        NoWrap(base, 2 * WORD);
        ReadIsWordAt(raw, base + 2 * WORD);
        if WordAt(raw, base + 2 * WORD).Some? {
          var rel := WordAt(raw, base + 2 * WORD).value;
          if rel <= |raw| {
            NoWrap(base, rel);
            ReadIsWordAt(raw, base + rel);
            if WordAt(raw, base + rel).Some? {
              NoWrap(base + rel, WORD);
              NoWrap(base + rel + WORD, WordAt(raw, base + rel).value);
              EndWraps(raw, base + rel + WORD, WordAt(raw, base + rel).value);
            }
          } else {
            NoWordBeyond(raw, base + rel);
          }
        }
      } else {
        NoWordBeyond(raw, base + 2 * WORD);
      }
    }
  }

  /** Three words: the struct at 32, nothing, and a url offset that brings the string back to the start. */
  function Wrapping(): Bytes { Word(WORD) + Word(0) + Word(0) + Word(TWO64 - WORD) }

  /** A url offset of 2^64 - 32 is followed to the start of the bytes and read as a string of 32 bytes. */
  lemma WrappedOffsetIsFollowed()
    ensures |Wrapping()| == 4 * WORD
    ensures UrlOf(Wrapping()) == None
    ensures DecodeURL(Wrapping()) == Some(Word(0))
  {
    hide Value, Digits, Pow256;
    var raw := Wrapping();
    ValueOfWord(WORD);
    ValueOfWord(TWO64 - WORD);
    assert raw[..WORD] == raw[0..WORD] == Word(WORD);
    assert raw[3 * WORD..4 * WORD] == Word(TWO64 - WORD);
    assert raw[WORD..2 * WORD] == Word(0);
  }

  // ---------------------------------------------------------------- Encoding

  datatype Service = Service(
    provider: Bytes, serviceType: Bytes, url: Bytes, inputPrice: nat, outputPrice: nat, updatedAt: nat,
    model: Bytes, verifiability: Bytes, additionalInfo: Bytes, signer: Bytes, acknowledged: bool)

  /** An address is 20 bytes. */
  predicate IsService(s: Service) { |s.provider| == 20 && |s.signer| == 20 }

  function Zeros(n: nat): (z: Bytes)
    ensures |z| == n && AllZero(z)
  {
    seq(n, i => 0)
  }

  function Address(a: Bytes): (w: Bytes)
    requires |a| == 20
    ensures |w| == WORD
  {
    Zeros(12) + a
  }

  /** A string: its length, and its bytes padded on the right to whole words. */
  function Tail(s: Bytes): Bytes {
    Word(|s|) + s + Zeros((WORD - |s| % WORD) % WORD)
  }

  /** The tuple's head, with where each string's tail begins from the start of the tuple. */
  function Head(s: Service): (h: seq<Bytes>)
    requires IsService(s)
    ensures |h| == FIELDS && forall i :: 0 <= i < |h| ==> |h[i]| == WORD
  {
    var typeAt := FIELDS * WORD;
    var urlAt := typeAt + |Tail(s.serviceType)|;
    var modelAt := urlAt + |Tail(s.url)|;
    var verifiabilityAt := modelAt + |Tail(s.model)|;
    var infoAt := verifiabilityAt + |Tail(s.verifiability)|;
    [Address(s.provider), Word(typeAt), Word(urlAt), Word(s.inputPrice), Word(s.outputPrice), Word(s.updatedAt),
     Word(modelAt), Word(verifiabilityAt), Word(infoAt), Address(s.signer), Word(if s.acknowledged then 1 else 0)]
  }

  function Concat(ws: seq<Bytes>): Bytes {
    if ws == [] then [] else ws[0] + Concat(ws[1..])
  }

  /** One dynamic tuple: the offset of its encoding, its head, and its tails in order. */
  function Encoded(s: Service): Bytes
    requires IsService(s)
  {
    Concat([Word(WORD)] + Head(s))
    + (Tail(s.serviceType) + (Tail(s.url) + Tail(s.model) + Tail(s.verifiability) + Tail(s.additionalInfo)))
  }

  lemma {:induction false} ConcatWords(ws: seq<Bytes>, i: nat)
    requires (forall j :: 0 <= j < |ws| ==> |ws[j]| == WORD) && i < |ws|
    ensures |Concat(ws)| == WORD * |ws| && Concat(ws)[WORD * i..WORD * (i + 1)] == ws[i]
    decreases |ws|
  {
    var rest := ws[1..];
    if i > 0 {
      ConcatWords(rest, i - 1);
      assert Concat(ws)[WORD * i..WORD * (i + 1)] == Concat(rest)[WORD * (i - 1)..WORD * i];
    } else if rest != [] {
      ConcatWords(rest, 0);
    } else {
      assert Concat(ws) == ws[0];
    }
  }

  /** The head words of an encoding, the offset word first. */
  lemma HeadWordAt(s: Service, i: nat)
    requires IsService(s) && i <= FIELDS
    ensures |Encoded(s)| >= WORD * (FIELDS + 1)
    ensures Encoded(s)[WORD * i..WORD * (i + 1)] == ([Word(WORD)] + Head(s))[i]
  {
    hide Word, Head, Tail, Concat;
    var ws := [Word(WORD)] + Head(s);
    ConcatWords(ws, i);
    assert Encoded(s)[WORD * i..WORD * (i + 1)] == Concat(ws)[WORD * i..WORD * (i + 1)];
  }

  lemma WordIsZero(w: Bytes)
    requires Value(w) == 0
    ensures AllZero(w)
  {
    if w != [] {
      WordIsZero(w[..|w| - 1]);
    }
  }

  lemma {:induction false} ZeroIsValueless(w: Bytes)
    requires AllZero(w)
    ensures Value(w) == 0
  {
    if w != [] {
      ZeroIsValueless(w[..|w| - 1]);
    }
  }

  /** Decoding an encoding gives back the signer and its flag. */
  lemma ServiceOfEncoded(s: Service)
    requires IsService(s)
    ensures |Encoded(s)| < MAX_LEN ==> ServiceOf(Encoded(s)) == Some(Signer(s.signer, s.acknowledged))
  {
    if |Encoded(s)| < MAX_LEN {
      ServiceIsFound(s);
    }
  }

  lemma ServiceIsFound(s: Service)
    requires IsService(s) && |Encoded(s)| < MAX_LEN
    ensures ServiceOf(Encoded(s)) == Some(Signer(s.signer, s.acknowledged))
  {
    var raw: Raw := Encoded(s);
    HeadWordAt(s, 0);
    HeadWordAt(s, 10);
    HeadWordAt(s, 11);
    SignerWord(s);
    AckWord(s);
    ValueOfWord(WORD);
    hide Encoded, Value, Word, Head, AllZero;
    assert raw[..WORD] == raw[0..WORD];
  }

  lemma SignerWord(s: Service)
    requires IsService(s)
    ensures Head(s)[9] == Address(s.signer) && Address(s.signer)[12..] == s.signer && AllZero(Address(s.signer)[..12])
  {
    assert Address(s.signer)[..12] == Zeros(12);
  }

  lemma AckWord(s: Service)
    requires IsService(s)
    ensures !AllZero(Head(s)[10]) <==> s.acknowledged
  {
    var w := Word(if s.acknowledged then 1 else 0);
    assert Head(s)[10] == w;
    hide Word;
    ValueOfWord(if s.acknowledged then 1 else 0);
    if AllZero(w) { ZeroIsValueless(w); }
    if Value(w) == 0 { WordIsZero(w); }
  }

  /** Where the url's tail is. */
  lemma UrlTailAt(s: Service)
    requires IsService(s)
    ensures var at := WORD * (FIELDS + 1) + |Tail(s.serviceType)|;
            at + |Tail(s.url)| <= |Encoded(s)| && Encoded(s)[at..at + |Tail(s.url)|] == Tail(s.url)
  {
    hide Word, Head, Tail, Concat;
    ConcatWords([Word(WORD)] + Head(s), 0);
  }

  lemma SliceOfSlice(raw: Bytes, at: nat, n: nat, lo: nat, hi: nat)
    requires lo <= hi <= n && at + n <= |raw|
    ensures raw[at..at + n][lo..hi] == raw[at + lo..at + hi]
  {
    var a, b := raw[at..at + n][lo..hi], raw[at + lo..at + hi];
    assert |a| == |b|;
    assert forall i :: 0 <= i < |a| ==> a[i] == b[i];
  }

  lemma TailMeans(s: Bytes)
    ensures |Tail(s)| >= WORD + |s| && Tail(s)[..WORD] == Word(|s|) && Tail(s)[WORD..WORD + |s|] == s
  {
    hide Word;
    var pad := Zeros((WORD - |s| % WORD) % WORD);
    var word := Word(|s|);
    assert |word| == WORD;
    assert Tail(s) == word + s + pad;
    assert (word + s + pad)[..WORD] == word;
    assert (word + s + pad)[WORD..WORD + |s|] == s;
  }

  lemma UrlOffset(s: Service)
    requires IsService(s)
    ensures Encoded(s)[0..WORD] == Word(WORD)
    ensures Encoded(s)[3 * WORD..4 * WORD] == Word(FIELDS * WORD + |Tail(s.serviceType)|)
  {
    HeadWordAt(s, 0);
    HeadWordAt(s, 3);
    assert Head(s)[2] == Word(FIELDS * WORD + |Tail(s.serviceType)|);
  }

  /** The words the url is found by. */
  ghost predicate UrlIsAt(raw: Bytes, rel: nat, url: Bytes) {
    && |raw| >= 2 * WORD + rel + |url| && |raw| >= 4 * WORD
    && raw[0..WORD] == Word(WORD) && raw[3 * WORD..4 * WORD] == Word(rel)
    && raw[WORD + rel..2 * WORD + rel] == Word(|url|) && raw[2 * WORD + rel..2 * WORD + rel + |url|] == url
  }

  lemma EncodedUrlIsAt(s: Service)
    requires IsService(s)
    ensures UrlIsAt(Encoded(s), FIELDS * WORD + |Tail(s.serviceType)|, s.url)
  {
    hide Encoded, Tail, Head, Word;
    UrlOffset(s);
    UrlTailAt(s);
    TailMeans(s.url);
    var raw, at, n := Encoded(s), WORD * (FIELDS + 1) + |Tail(s.serviceType)|, |Tail(s.url)|;
    SliceOfSlice(raw, at, n, 0, WORD);
    SliceOfSlice(raw, at, n, WORD, WORD + |s.url|);
  }

  lemma UrlFound(raw: Raw, rel: nat, url: Bytes)
    requires UrlIsAt(raw, rel, url)
    ensures UrlOf(raw) == Some(url) && DecodeURL(raw) == Some(url)
  {
    hide Word, Value, DecodeURL;
    ValueOfWord(WORD);
    ValueOfWord(rel);
    ValueOfWord(|url|);
    assert WordAt(raw, 0) == Some(WORD) && WordAt(raw, 3 * WORD) == Some(rel) && WordAt(raw, WORD + rel) == Some(|url|);
    UrlWithinBounds(raw);
  }

  /** And so does decoding the url, by either decoder. */
  lemma UrlOfEncoded(s: Service)
    requires IsService(s)
    ensures |Encoded(s)| < MAX_LEN ==> UrlOf(Encoded(s)) == Some(s.url) && DecodeURL(Encoded(s)) == Some(s.url)
  {
    hide UrlOf, DecodeURL, Encoded, Tail, UrlIsAt;
    EncodedUrlIsAt(s);
    if |Encoded(s)| < MAX_LEN {
      UrlFound(Encoded(s), FIELDS * WORD + |Tail(s.serviceType)|, s.url);
    }
  }
}
