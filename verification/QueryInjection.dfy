/** Injecting a secret as a query parameter; each `char` stands for one byte. */
module QueryInjection {
  import opened Text

  type Byte = c: char | c as int < 256 witness 'a'

  predicate IsUnreserved(c: char) {
    '0' <= c <= '9' || 'A' <= c <= 'Z' || 'a' <= c <= 'z' || c in "-._~"
  }

  const HEX := "0123456789ABCDEF"

  function HexValue(c: char): (v: Option<nat>)
    ensures v.Some? ==> v.value < 16
  {
    if '0' <= c <= '9' then Some(c as int - '0' as int)
    else if 'A' <= c <= 'F' then Some(c as int - 'A' as int + 10)
    else if 'a' <= c <= 'f' then Some(c as int - 'a' as int + 10)
    else None
  }

  function EncodeByte(b: Byte): string {
    if IsUnreserved(b) then [b] else ['%', HEX[b as int / 16], HEX[b as int % 16]]
  }

  function Encode(value: seq<Byte>): string {
    if value == [] then "" else EncodeByte(value[0]) + Encode(value[1..])
  }

  method PercentEncodeQueryValue(value: seq<Byte>) returns (out: string)
    ensures out == Encode(value)
  {
    out := "";
    for i := 0 to |value|
      invariant Encode(value) == out + Encode(value[i..])
    {
      assert value[i..][1..] == value[i + 1..];
      out := out + EncodeByte(value[i]);
    }
  }

  predicate StartsWithEscape(s: string) {
    |s| > 2 && s[0] == '%' && HexValue(s[1]).Some? && HexValue(s[2]).Some?
  }

  function EscapedChar(s: string): char
    requires StartsWithEscape(s)
  {
    (16 * HexValue(s[1]).value + HexValue(s[2]).value) as char
  }

  /** Invalid escapes are kept as they stand. */
  function Decode(s: string): (r: string)
    ensures |r| <= |s|
  {
    if s == "" then ""
    else if StartsWithEscape(s) then [EscapedChar(s)] + Decode(s[3..])
    else [s[0]] + Decode(s[1..])
  }

  lemma DecodeFrom(raw: string, i: nat)
    requires i < |raw|
    ensures Decode(raw[i..]) == if StartsWithEscape(raw[i..]) then [EscapedChar(raw[i..])] + Decode(raw[i + 3..])
                                else [raw[i]] + Decode(raw[i + 1..])
  {
    var rest := raw[i..];
    assert rest[1..] == raw[i + 1..];
    assert StartsWithEscape(rest) ==> rest[3..] == raw[i + 3..];
  }

  method PercentDecodeKey(raw: string) returns (out: string)
    ensures out == Decode(raw)
  {
    hide HexValue, EscapedChar;
    out := "";
    var i := 0;
    assert raw[0..] == raw;
    while i < |raw|
      invariant 0 <= i <= |raw|
      invariant Decode(raw) == out + Decode(raw[i..])
    {
      DecodeFrom(raw, i);
      var escaped := StartsWithEscape(raw[i..]);
      var c := if escaped then EscapedChar(raw[i..]) else raw[i];
      var next := if escaped then i + 3 else i + 1;
      assert out + ([c] + Decode(raw[next..])) == out + [c] + Decode(raw[next..]);
      out, i := out + [c], next;
    }
  }

  function Key(segment: string): string {
    segment[..IndexOf(segment, '=')]
  }

  function Value(segment: string): string {
    var end := IndexOf(segment, '=');
    if end < |segment| then segment[end + 1..] else ""
  }

  /** The segments whose decoded key is not `name`, in order. */
  function Others(segments: seq<string>, name: string): (r: seq<string>)
    ensures forall s | s in r :: s in segments && Decode(Key(s)) != name
  {
    if segments == [] then []
    else if Decode(Key(segments[0])) != name then [segments[0]] + Others(segments[1..], name)
    else Others(segments[1..], name)
  }

  function StripQueryParam(query: string, name: string): string {
    Join(Others(Split(query, '&'), name), '&')
  }

  function AppendQueryParameter(existing: Option<string>, name: string, encoded: string): string {
    var parameter := name + "=" + encoded;
    if existing.None? then parameter
    else
      var kept := StripQueryParam(existing.value, name);
      if kept == "" then parameter else kept + "&" + parameter
  }

  // --- Percent coding ------------------------------------------------------------------------------------

  lemma DecodeEncodedByte(b: Byte, rest: string)
    ensures Decode(EncodeByte(b) + rest) == [b] + Decode(rest)
    ensures '&' !in EncodeByte(b) && '=' !in EncodeByte(b)
  {
    var s := EncodeByte(b) + rest;
    if IsUnreserved(b) {
      assert s[0] == b && s[1..] == rest;
    } else {
      var hi, lo := b as int / 16, b as int % 16;
      HexDigitsInvert(hi);
      HexDigitsInvert(lo);
      assert s[0] == '%' && s[1] == HEX[hi] && s[2] == HEX[lo] && s[3..] == rest;
    }
  }

  lemma HexDigitsInvert(d: nat)
    requires d < 16
    ensures HexValue(HEX[d]) == Some(d) && HEX[d] != '&' && HEX[d] != '='
  {
  }

  /** Decoding recovers the secret, and its encoding cannot break out of its segment. */
  lemma {:induction false} DecodeInvertsEncode(value: seq<Byte>)
    ensures Decode(Encode(value)) == value
    ensures '&' !in Encode(value) && '=' !in Encode(value)
  {
    if value != [] {
      DecodeEncodedByte(value[0], Encode(value[1..]));
      DecodeInvertsEncode(value[1..]);
    }
  }

  // --- Injection -------------------------------------------------------------------------------------------

  /** No position of `s` starts a valid escape, so decoding takes no branch that changes anything. */
  predicate NoEscape(s: string) {
    forall i | 0 <= i < |s| :: !StartsWithEscape(s[i..])
  }

  /** Neither separator occurs in the name, and no escape does. */
  predicate SafeName(name: string) {
    '&' !in name && '=' !in name && NoEscape(name)
  }

  lemma NoEscapeTail(s: string)
    requires s != ""
    ensures NoEscape(s) <==> !StartsWithEscape(s) && NoEscape(s[1..])
  {
    assert s[0..] == s;
    assert forall i | 0 <= i < |s| - 1 :: s[1..][i..] == s[i + 1..];
    if NoEscape(s) {
      forall i | 0 <= i < |s[1..]| ensures !StartsWithEscape(s[1..][i..]) {
        assert !StartsWithEscape(s[i + 1..]);
      }
    }
    if !StartsWithEscape(s) && NoEscape(s[1..]) {
      forall i | 0 <= i < |s| ensures !StartsWithEscape(s[i..]) {
        if i > 0 {
          assert !StartsWithEscape(s[1..][i - 1..]);
        }
      }
    }
  }

  /** Decoding leaves a string alone exactly when it holds no escape; otherwise it gets shorter. */
  lemma {:induction false} DecodeFixesIffNoEscape(s: string)
    ensures NoEscape(s) ==> Decode(s) == s
    ensures !NoEscape(s) ==> |Decode(s)| < |s|
  {
    if s != "" {
      NoEscapeTail(s);
      if !StartsWithEscape(s) {
        DecodeFixesIffNoEscape(s[1..]);
        assert s == [s[0]] + s[1..];
      }
    }
  }

  /** The characters the metadata validator permits in a parameter name. */
  predicate IsLowercaseTokenChar(c: char) {
    'a' <= c <= 'z' || '0' <= c <= '9' || c in "!#$%&'*+-.^_`|~"
  }

  predicate PermittedName(name: string) {
    name != "" && forall c | c in name :: IsLowercaseTokenChar(c)
  }

  /** Among the names the validator permits, the unsafe ones are those with an ampersand or an escape. */
  lemma PermittedNameIsSafeIff(name: string)
    requires PermittedName(name)
    ensures SafeName(name) <==> '&' !in name && NoEscape(name)
  {
    assert '=' in name ==> IsLowercaseTokenChar('=');
  }

  lemma EscapedNameReadsBackDecoded(secret: seq<Byte>)
    ensures Decode(Key(LastOf(Split(AppendQueryParameter(None, "%61", Encode(secret)), '&')))) == "a"
  {
    hide Encode;
    var encoded := Encode(secret);
    DecodeInvertsEncode(secret);
    SegmentParts("%61", encoded);
    SplitPiece("%61" + "=" + encoded, '&');
    assert StartsWithEscape("%61") && Decode("%61"[3..]) == "" && EscapedChar("%61") == 'a';
  }

  lemma AmpersandNameReadsBackCut(secret: seq<Byte>)
    ensures Decode(Key(LastOf(Split(AppendQueryParameter(None, "a&b", Encode(secret)), '&')))) == "b"
  {
    hide Encode;
    var encoded := Encode(secret);
    DecodeInvertsEncode(secret);
    SegmentParts("b", encoded);
    assert "a&b" + "=" + encoded == "a" + ['&'] + ("b" + "=" + encoded);
    SplitConcat("a", '&', "b" + "=" + encoded);
    SplitPiece("b" + "=" + encoded, '&');
    assert !StartsWithEscape("b") && Decode("b"[1..]) == "";
  }

  /** The validator lets through names whose parameter reads back under another name. */
  lemma PermittedNamesCanBeUnsafe(secret: seq<Byte>)
    ensures PermittedName("%61")
            && Decode(Key(LastOf(Split(AppendQueryParameter(None, "%61", Encode(secret)), '&')))) == "a"
    ensures PermittedName("a&b")
            && Decode(Key(LastOf(Split(AppendQueryParameter(None, "a&b", Encode(secret)), '&')))) == "b"
  {
    EscapedNameReadsBackDecoded(secret);
    AmpersandNameReadsBackCut(secret);
  }

  lemma {:induction false} UnreservedNameIsSafe(name: string)
    requires forall c | c in name :: IsUnreserved(c)
    ensures SafeName(name)
  {
    if name != "" {
      UnreservedNameIsSafe(name[1..]);
      NoEscapeTail(name);
      assert IsUnreserved(name[0]) && name == [name[0]] + name[1..];
    }
  }

  /** `at` lists, in order, exactly the positions whose decoded key is not `name`. */
  ghost predicate OtherPositions(segments: seq<string>, name: string, at: seq<nat>) {
    && (forall j, k | 0 <= j < k < |at| :: at[j] < at[k])
    && (forall j | 0 <= j < |at| :: at[j] < |segments|)
    && (forall i | 0 <= i < |segments| :: i in at <==> Decode(Key(segments[i])) != name)
  }

  /** The segments at the listed positions. */
  function Pick(segments: seq<string>, at: seq<nat>): (r: seq<string>)
    requires forall j | 0 <= j < |at| :: at[j] < |segments|
    ensures |r| == |at| && forall j | 0 <= j < |at| :: r[j] == segments[at[j]]
  {
    seq(|at|, j requires 0 <= j < |at| => segments[at[j]])
  }

  function Shift(at: seq<nat>): (r: seq<nat>)
    ensures |r| == |at| && forall j | 0 <= j < |at| :: r[j] == at[j] + 1
  {
    seq(|at|, j requires 0 <= j < |at| => at[j] + 1)
  }

  lemma ShiftedIn(at: seq<nat>, i: nat)
    ensures i in Shift(at) <==> i > 0 && i - 1 in at
  {
    if i > 0 && i - 1 in at {
      var j :| 0 <= j < |at| && at[j] == i - 1;
      assert Shift(at)[j] == i;
    }
  }

  function HeadPosition(segments: seq<string>, name: string): seq<nat>
    requires segments != []
  {
    if Decode(Key(segments[0])) != name then [0] else []
  }

  lemma PositionsExtend(segments: seq<string>, name: string, later: seq<nat>)
    requires segments != [] && OtherPositions(segments[1..], name, later)
    ensures OtherPositions(segments, name, HeadPosition(segments, name) + Shift(later))
  {
    hide Decode, Key;
    var head := HeadPosition(segments, name);
    var at := head + Shift(later);
    forall i | 0 <= i < |segments| ensures i in at <==> Decode(Key(segments[i])) != name {
      ShiftedIn(later, i);
      assert i > 0 ==> segments[i] == segments[1..][i - 1];
    }
    assert forall j | 0 <= j < |at| :: at[j] == if j < |head| then 0 else later[j - |head|] + 1;
  }

  lemma PickExtends(segments: seq<string>, head: seq<nat>, later: seq<nat>)
    requires segments != [] && (head == [] || head == [0])
    requires forall j | 0 <= j < |later| :: later[j] < |segments[1..]|
    ensures var at := head + Shift(later);
            && (forall j | 0 <= j < |at| :: at[j] < |segments|)
            && Pick(segments, at) == (if head == [] then [] else [segments[0]]) + Pick(segments[1..], later)
  {
    var at := head + Shift(later);
    assert forall j | 0 <= j < |at| :: at[j] == if j < |head| then 0 else later[j - |head|] + 1;
  }

  lemma {:induction false} OthersArePicked(segments: seq<string>, name: string) returns (at: seq<nat>)
    ensures OtherPositions(segments, name, at) && Others(segments, name) == Pick(segments, at)
  {
    hide Decode, Key, Shift;
    at := [];
    if segments != [] {
      var later := OthersArePicked(segments[1..], name);
      PositionsExtend(segments, name, later);
      PickExtends(segments, HeadPosition(segments, name), later);
      at := HeadPosition(segments, name) + Shift(later);
    }
  }

  lemma SegmentParts(name: string, encoded: string)
    requires '=' !in name
    ensures Key(name + "=" + encoded) == name && Value(name + "=" + encoded) == encoded
  {
    IndexOfFirst(name, '=', encoded);
    assert (name + "=" + encoded)[..|name|] == name;
  }

  lemma EmptyJoin(pieces: seq<string>)
    ensures Join(pieces, '&') == "" <==> pieces == [] || pieces == [""]
  {
    if |pieces| == 1 {
      assert pieces == [pieces[0]];
    }
  }

  /** What the old query contributes: its surviving segments verbatim, or none when they join to nothing. */
  function Survivors(existing: Option<string>, name: string): seq<string> {
    if existing.None? || StripQueryParam(existing.value, name) == "" then []
    else Others(Split(existing.value, '&'), name)
  }

  lemma SplitAfterAppend(existing: Option<string>, name: string, encoded: string)
    ensures Split(AppendQueryParameter(existing, name, encoded), '&') ==
            Survivors(existing, name) + Split(name + "=" + encoded, '&')
  {
    var parameter := name + "=" + encoded;
    if existing.Some? && StripQueryParam(existing.value, name) != "" {
      var others := Others(Split(existing.value, '&'), name);
      SplitPiecesAreClean(existing.value, '&');
      SplitConcat(Join(others, '&'), '&', parameter);
      SplitJoin(others, '&');
    }
  }

  /**
   * The rebuilt query ends with the injected parameter, which carries the secret. Before it stand, verbatim and
   * in order, exactly the segments of the old query whose key does not decode to its name; a lone empty one
   * is dropped.
   */
  lemma InjectionIsExact(existing: Option<string>, name: string, secret: seq<Byte>) returns (at: seq<nat>)
    requires SafeName(name)
    ensures var segments := Split(AppendQueryParameter(existing, name, Encode(secret)), '&');
            var before := if existing.None? then [] else Split(existing.value, '&');
            && Decode(Key(LastOf(segments))) == name
            && Decode(Value(LastOf(segments))) == secret
            && (forall s | s in segments[..|segments| - 1] :: Decode(Key(s)) != name)
            && OtherPositions(before, name, at)
            && segments[..|segments| - 1] == if Pick(before, at) == [""] then [] else Pick(before, at)
  {
    hide Decode, Encode, OtherPositions, Others, Split, AppendQueryParameter;
    var parameter, survivors := name + "=" + Encode(secret), Survivors(existing, name);
    DecodeInvertsEncode(secret);
    DecodeFixesIffNoEscape(name);
    SegmentParts(name, Encode(secret));
    SplitAfterAppend(existing, name, Encode(secret));
    SplitPiece(parameter, '&');
    assert (survivors + [parameter])[..|survivors|] == survivors;
    at := SurvivorsArePicked(existing, name);
  }

  lemma SurvivorsArePicked(existing: Option<string>, name: string) returns (at: seq<nat>)
    ensures var before := if existing.None? then [] else Split(existing.value, '&');
            && OtherPositions(before, name, at)
            && Survivors(existing, name) == if Pick(before, at) == [""] then [] else Pick(before, at)
    ensures forall s | s in Survivors(existing, name) :: Decode(Key(s)) != name
  {
    hide Decode, OtherPositions;
    at := OthersArePicked(if existing.None? then [] else Split(existing.value, '&'), name);
    if existing.Some? {
      EmptyJoin(Others(Split(existing.value, '&'), name));
    }
  }

  lemma {:induction false} LastSeparator(name: string) returns (before: string, after: string)
    requires '&' in name
    ensures name == before + "&" + after && '&' !in after
  {
    if '&' in name[1..] {
      before, after := LastSeparator(name[1..]);
      before := [name[0]] + before;
    } else {
      before, after := "", name[1..];
    }
  }

  lemma KeyIsShort(head: string, encoded: string)
    ensures |Key(head + "=" + encoded)| <= |head|
    ensures '=' in head ==> |Key(head + "=" + encoded)| < |head|
  {
    var s := head + "=" + encoded;
    IndexOfAtMost(s, '=', |head|);
    if i :| 0 <= i < |head| && head[i] == '=' {
      assert s[i] == '=';
      IndexOfAtMost(s, '=', i);
    }
  }

  function LastOf(segments: seq<string>): string
    requires segments != []
  {
    segments[|segments| - 1]
  }

  lemma UnsafeNameReadsOtherwise(name: string, encoded: string)
    requires !SafeName(name) && '&' !in encoded
    ensures Decode(Key(LastOf(Split(name + "=" + encoded, '&')))) != name
  {
    if '&' in name {
      var before, after := LastSeparator(name);
      var tail := after + "=" + encoded;
      assert name + "=" + encoded == before + ['&'] + tail;
      SplitConcat(before, '&', tail);
      SplitPiece(tail, '&');
      KeyIsShort(after, encoded);
    } else {
      SplitPiece(name + "=" + encoded, '&');
      if '=' in name {
        KeyIsShort(name, encoded);
      } else {
        SegmentParts(name, encoded);
        DecodeFixesIffNoEscape(name);
      }
    }
  }

  /** Safe names are exactly those whose injected parameter reads back under its name. */
  lemma InjectedKeyReadsBackIffSafe(existing: Option<string>, name: string, secret: seq<Byte>)
    ensures Decode(Key(LastOf(Split(AppendQueryParameter(existing, name, Encode(secret)), '&')))) == name <==>
            SafeName(name)
  {
    if SafeName(name) {
      var at := InjectionIsExact(existing, name, secret);
    } else {
      SplitAfterAppend(existing, name, Encode(secret));
      DecodeInvertsEncode(secret);
      UnsafeNameReadsOtherwise(name, Encode(secret));
    }
  }

  // --- The alphabets -----------------------------------------------------------------------------------------

  const UPPER := "ABCDEFGHIJKLMNOPQRSTUVWXYZ"

  const LOWER := "abcdefghijklmnopqrstuvwxyz"

  const UNRESERVED := UPPER + LOWER + "0123456789-._~"

  const LOWERCASE_TOKEN := "!#$%&'*+-.^_`|~0123456789abcdefghijklmnopqrstuvwxyz"

  const LOWER_HEX := "0123456789abcdef"

  /** The token characters without upper case. */
  lemma TokenAlphabet(c: char)
    ensures IsLowercaseTokenChar(c) <==> c in LOWERCASE_TOKEN
  {
  }

  lemma LetterAlphabets(c: char)
    ensures 'A' <= c <= 'Z' <==> c in UPPER
    ensures 'a' <= c <= 'z' <==> c in LOWER
  {
  }

  /** The unreserved characters of section 2.3 of RFC 3986. */
  lemma UnreservedAlphabet(c: char)
    ensures IsUnreserved(c) <==> c in UNRESERVED
  {
    hide UPPER, LOWER;
    LetterAlphabets(c);
    assert c in UNRESERVED <==> c in UPPER || c in LOWER || c in "0123456789-._~";
  }

  /** Unreserved bytes are written as they are, every other one as `%` and its two upper-case digits. */
  lemma EncodedByteIs(b: Byte)
    ensures EncodeByte(b) == if b in UNRESERVED then [b] else "%" + [HEX[b as int / 16]] + [HEX[b as int % 16]]
  {
    UnreservedAlphabet(b);
  }

  predicate IsHexDigit(c: char, d: nat) {
    d < 16 && (c == HEX[d] || c == LOWER_HEX[d])
  }

  lemma HexValueIff(c: char, d: nat)
    ensures HexValue(c) == Some(d) <==> IsHexDigit(c, d)
  {
  }

  lemma HexValueSomeIff(c: char)
    ensures HexValue(c).Some? <==> exists d :: IsHexDigit(c, d)
  {
    hide HexValue, IsHexDigit;
    if HexValue(c).Some? {
      HexValueIff(c, HexValue(c).value);
    }
    if d :| IsHexDigit(c, d) {
      HexValueIff(c, d);
    }
  }

  /** A percent sign with two hexadecimal digits of either case stands for their byte; anything else for itself. */
  lemma DecodeOutcome(s: string, hi: nat, lo: nat)
    requires s != ""
    ensures |s| > 2 && s[0] == '%' && IsHexDigit(s[1], hi) && IsHexDigit(s[2], lo) ==>
              Decode(s) == [(16 * hi + lo) as char] + Decode(s[3..])
    ensures !(|s| > 2 && s[0] == '%' && (exists d :: IsHexDigit(s[1], d)) && exists d :: IsHexDigit(s[2], d)) ==>
              Decode(s) == [s[0]] + Decode(s[1..])
  {
    hide HexValue, IsHexDigit;
    if |s| > 2 {
      HexValueIff(s[1], hi);
      HexValueIff(s[2], lo);
      HexValueSomeIff(s[1]);
      HexValueSomeIff(s[2]);
    }
  }
}
