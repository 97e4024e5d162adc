/** Truncating a denial reason to the audit byte budget at a character boundary. */
module BoundedReason {
  import opened Text
  import opened AuditLog

  /** A Unicode scalar value. */
  type Scalar = c: nat | c < 0xD800 || 0xE000 <= c < 0x11_0000

  /** The encoding of section 3 of RFC 3629. */
  function Utf8Char(c: Scalar): (bytes: seq<nat>)
    ensures 1 <= |bytes| <= 4
    ensures !IsContinuation(bytes[0])
    ensures forall i | 0 < i < |bytes| :: IsContinuation(bytes[i])
  {
    if c < 0x80 then [c]
    else if c < 0x800 then [0xC0 + c / 64, 0x80 + c % 64]
    else if c < 0x1_0000 then [0xE0 + c / 4096, 0x80 + c / 64 % 64, 0x80 + c % 64]
    else [0xF0 + c / 262144, 0x80 + c / 4096 % 64, 0x80 + c / 64 % 64, 0x80 + c % 64]
  }

  function Utf8(text: seq<Scalar>): seq<nat> {
    if text == [] then [] else Utf8Char(text[0]) + Utf8(text[1..])
  }

  predicate IsContinuation(byte: nat) {
    0x80 <= byte < 0xC0
  }

  predicate IsCharBoundary(bytes: seq<nat>, i: nat) {
    i == 0 || i == |bytes| || (i < |bytes| && !IsContinuation(bytes[i]))
  }

  /** The last boundary at or before `end`. */
  function LastBoundary(bytes: seq<nat>, end: nat): (k: nat)
    ensures k <= end && IsCharBoundary(bytes, k)
    ensures forall i | k < i <= end :: !IsCharBoundary(bytes, i)
  {
    if IsCharBoundary(bytes, end) then end else LastBoundary(bytes, end - 1)
  }

  function Truncated(reason: seq<nat>): (out: seq<nat>)
    ensures |out| <= MAX_DENY_REASON_BYTES && out <= reason && IsCharBoundary(reason, |out|)
    ensures forall i | |out| < i <= |reason| && IsCharBoundary(reason, i) :: i > MAX_DENY_REASON_BYTES
  {
    if |reason| <= MAX_DENY_REASON_BYTES then reason
    else reason[..LastBoundary(reason, MAX_DENY_REASON_BYTES)]
  }

  /** The loop that steps back from the budget to a boundary. */
  method TruncateReason(reason: seq<nat>) returns (out: seq<nat>)
    ensures out == Truncated(reason)
  {
    if |reason| <= MAX_DENY_REASON_BYTES {
      return reason;
    }
    var end := MAX_DENY_REASON_BYTES;
    while !IsCharBoundary(reason, end)
      invariant 0 <= end <= MAX_DENY_REASON_BYTES
      invariant LastBoundary(reason, MAX_DENY_REASON_BYTES) == LastBoundary(reason, end)
      decreases end
    {
      end := end - 1;
    }
    return reason[..end];
  }

  lemma {:induction false} PrefixIsBoundary(text: seq<Scalar>, k: nat)
    requires k <= |text|
    ensures Utf8(text[..k]) <= Utf8(text)
    ensures IsCharBoundary(Utf8(text), |Utf8(text[..k])|)
  {
    if k > 0 {
      PrefixIsBoundary(text[1..], k - 1);
      assert text[..k][1..] == text[1..][..k - 1];
      var first, rest := Utf8Char(text[0]), Utf8(text[1..]);
      var n := |Utf8(text[1..][..k - 1])|;
      assert n < |rest| ==> Utf8(text)[|first| + n] == rest[n];
    }
  }

  lemma {:induction false} BoundaryIsPrefix(text: seq<Scalar>, i: nat) returns (k: nat)
    requires i <= |Utf8(text)| && IsCharBoundary(Utf8(text), i)
    ensures k <= |text| && Utf8(text[..k]) == Utf8(text)[..i]
  {
    if i == 0 {
      k := 0;
    } else {
      var first, rest := Utf8Char(text[0]), Utf8(text[1..]);
      assert forall p | 0 <= p < |first| :: Utf8(text)[p] == first[p];
      assert i < |Utf8(text)| ==> Utf8(text)[i] == rest[i - |first|];
      k := BoundaryIsPrefix(text[1..], i - |first|);
      k := k + 1;
      assert text[..k][1..] == text[1..][..k - 1];
      assert Utf8(text)[..i] == first + rest[..i - |first|];
    }
  }

  lemma {:induction false} LongerPrefixIsLonger(text: seq<Scalar>, j: nat, k: nat)
    requires j < k <= |text|
    ensures |Utf8(text[..j])| < |Utf8(text[..k])|
  {
    if j > 0 {
      assert text[..j][1..] == text[1..][..j - 1] && text[..k][1..] == text[1..][..k - 1];
      LongerPrefixIsLonger(text[1..], j - 1, k - 1);
    }
  }

  /** `out` is the longest whole-character prefix of `text` within the budget. */
  ghost predicate LongestPrefixWithin(text: seq<Scalar>, out: seq<nat>, budget: nat) {
    exists k | 0 <= k <= |text| ::
      && out == Utf8(text[..k])
      && |out| <= budget
      && forall j | k < j <= |text| :: |Utf8(text[..j])| > budget
  }

  lemma LastBoundaryIsLongestPrefix(text: seq<Scalar>, n: nat)
    requires n <= MAX_DENY_REASON_BYTES && n <= |Utf8(text)| && IsCharBoundary(Utf8(text), n)
    requires forall i | n < i <= |Utf8(text)| && IsCharBoundary(Utf8(text), i) :: i > MAX_DENY_REASON_BYTES
    ensures LongestPrefixWithin(text, Utf8(text)[..n], MAX_DENY_REASON_BYTES)
  {
    var k := BoundaryIsPrefix(text, n);
    forall j | k < j <= |text| ensures |Utf8(text[..j])| > MAX_DENY_REASON_BYTES {
      PrefixIsBoundary(text, j);
      LongerPrefixIsLonger(text, k, j);
    }
  }

  /** A reason of any length becomes its longest whole-character prefix within the budget. */
  lemma TruncatedIsLongestPrefix(text: seq<Scalar>)
    ensures LongestPrefixWithin(text, Truncated(Utf8(text)), MAX_DENY_REASON_BYTES)
    ensures |Utf8(text)| <= MAX_DENY_REASON_BYTES ==> Truncated(Utf8(text)) == Utf8(text)
  {
    var out := Truncated(Utf8(text));
    LastBoundaryIsLongestPrefix(text, |out|);
    assert Utf8(text)[..|out|] == out;
  }

  /** A log that can be read accepts a denial with the bounded reason, and with the text itself exactly if it fits. */
  lemma BoundedDenialIsStored(c: Codec, file: Option<string>, id: string, body: NewEvent, text: seq<Scalar>,
      out: seq<nat>)
    requires Load(c, file).Ok? && LongestPrefixWithin(text, out, MAX_DENY_REASON_BYTES)
    ensures Append(c, file, id, body.(decision := Deny(out))).1.Ok?
    ensures Append(c, file, id, body.(decision := Deny(Utf8(text)))).1.Ok? <==> out == Utf8(text)
  {
    var k :| 0 <= k <= |text| && out == Utf8(text[..k])
             && forall j | k < j <= |text| :: |Utf8(text[..j])| > MAX_DENY_REASON_BYTES;
    assert text[..|text|] == text;
  }

  /** The base-64 digits of a number below 2^21. */
  lemma Digits(c: nat)
    requires c < 0x20_0000
    ensures c == c / 64 * 64 + c % 64
    ensures c / 64 == c / 4096 * 64 + c / 64 % 64
    ensures c / 4096 == c / 262144 * 64 + c / 4096 % 64
    ensures c / 262144 < 8
  {
    assert c / 64 / 64 == c / 4096;
    assert c / 4096 / 64 == c / 262144;
  }

  /** The bits of a lead or a continuation byte are its marker and the bits it carries. */
  lemma MarkedByte(marker: nat, width: nat, bits: nat)
    requires width in {8, 16, 32, 64} && bits < width
    ensures (marker * width + bits) / width == marker && (marker * width + bits) % width == bits
  {
  }

  /** The bit patterns of section 3 of RFC 3629, shortest form first: lead bits, continuation bits, and the value. */
  lemma Utf8CharIsRfc3629(c: Scalar)
    ensures var b := Utf8Char(c);
            && |b| == (if c < 0x80 then 1 else if c < 0x800 then 2 else if c < 0x1_0000 then 3 else 4)
            && (forall i | 0 < i < |b| :: b[i] / 64 == 2)
            && (|b| == 1 ==> b[0] == c)
            && (|b| == 2 ==> b[0] / 32 == 6 && c == b[0] % 32 * 64 + b[1] % 64)
            && (|b| == 3 ==> b[0] / 16 == 14 && c == b[0] % 16 * 4096 + b[1] % 64 * 64 + b[2] % 64)
            && (|b| == 4 ==> b[0] / 8 == 30
                             && c == b[0] % 8 * 262144 + b[1] % 64 * 4096 + b[2] % 64 * 64 + b[3] % 64)
  {
    Digits(c);
    MarkedByte(2, 64, c % 64);
    MarkedByte(2, 64, c / 64 % 64);
    MarkedByte(2, 64, c / 4096 % 64);
    if 0x80 <= c < 0x800 {
      MarkedByte(6, 32, c / 64);
    } else if 0x800 <= c < 0x1_0000 {
      MarkedByte(14, 16, c / 4096);
    } else if c >= 0x1_0000 {
      MarkedByte(30, 8, c / 262144);
    }
  }
}
