/** Go strings as byte sequences, and the parts of Go's `strings` and `strconv`
    packages that the service monitor relies on. Go slices, indexes and measures
    strings in bytes; so does this module. */
module Text {

  /** One byte of a Go string. A `char` below 256 so that string literals can be used. */
  type Byte = c: char | c as int < 256 witness 'a'
  type Bytes = seq<Byte>

  const NUL: Byte := 0 as char

  // ---------------------------------------------------------------- searching

  /** `sub` occurs in `s` starting at byte `i`. */
  predicate OccursAt(s: Bytes, sub: Bytes, i: int)
  {
    0 <= i && i + |sub| <= |s| && s[i..i + |sub|] == sub
  }

  /** strings.Contains: a left-to-right search for `sub`. */
  predicate Contains(s: Bytes, sub: Bytes)
    decreases |s|
  {
    if |sub| > |s| then false
    else if s[..|sub|] == sub then true
    else if |s| == 0 then false
    else Contains(s[1..], sub)
  }

  /** The search finds `sub` exactly when it occurs at some position. */
  lemma {:induction false} ContainsIffOccurs(s: Bytes, sub: Bytes)
    ensures Contains(s, sub) <==> exists i :: OccursAt(s, sub, i)
    decreases |s|
  {
    if |sub| > |s| {
    } else if s[..|sub|] == sub {
      assert OccursAt(s, sub, 0);
    } else if |s| == 0 {
    } else {
      var t := s[1..];
      ContainsIffOccurs(t, sub);
      if Contains(t, sub) {
        var i :| OccursAt(t, sub, i);
        assert s[i + 1..i + 1 + |sub|] == t[i..i + |sub|];
        assert OccursAt(s, sub, i + 1);
      } else {
        assert s[0..|sub|] == s[..|sub|];
        forall i | 0 < i && OccursAt(s, sub, i) ensures OccursAt(t, sub, i - 1) {
          assert t[i - 1..i - 1 + |sub|] == s[i..i + |sub|];
        }
      }
    }
  }

  /** Whatever contains `pre + name` contains `name`. */
  lemma ContainsSuffixPart(s: Bytes, pre: Bytes, name: Bytes)
    requires Contains(s, pre + name)
    ensures Contains(s, name)
  {
    ContainsIffOccurs(s, pre + name);
    var i :| OccursAt(s, pre + name, i);
    assert s[i + |pre|..i + |pre| + |name|] == (pre + name)[|pre|..];
    assert OccursAt(s, name, i + |pre|);
    ContainsIffOccurs(s, name);
  }

  /** strings.HasSuffix */
  predicate HasSuffix(s: Bytes, suffix: Bytes)
  {
    |suffix| <= |s| && s[|s| - |suffix|..] == suffix
  }

  /** strings.Index for a one-byte needle: the first position of `b`, or -1. */
  function IndexByte(s: Bytes, b: Byte): (r: int)
    ensures -1 <= r < |s|
    ensures r == -1 <==> b !in s
    ensures r >= 0 ==> s[r] == b && forall j :: 0 <= j < r ==> s[j] != b
  {
    if |s| == 0 then -1
    else if s[0] == b then 0
    else
      var k := IndexByte(s[1..], b);
      if k == -1 then -1 else k + 1
  }

  /** strings.LastIndex for a one-byte needle: the last position of `b`, or -1. */
  function LastIndexByte(s: Bytes, b: Byte): (r: int)
    ensures -1 <= r < |s|
    ensures r == -1 <==> b !in s
    ensures r >= 0 ==> s[r] == b && forall j :: r < j < |s| ==> s[j] != b
  {
    if |s| == 0 then -1
    else if s[|s| - 1] == b then |s| - 1
    else
      var k := LastIndexByte(s[..|s| - 1], b);
      assert forall j :: 0 <= j < |s| - 1 ==> s[..|s| - 1][j] == s[j];
      k
  }

  // ---------------------------------------------------------------- white space
  //
  // The white space is what unicode.IsSpace accepts, recognised by its UTF-8
  // bytes. Each encoding starts with a byte that begins a UTF-8 sequence, and
  // Go's rune decoder never takes such a byte as part of the rune before it,
  // so the decoder meets every encoding at a rune boundary and finds exactly
  // the white space these byte patterns find.

  /** The ASCII white space: \t \n \v \f \r and space. */
  predicate IsAsciiSpace(c: Byte)
  {
    c == ' ' || c == '\t' || c == '\n' || c == '\r' || c == 11 as char || c == 12 as char
  }

  /** A byte that can begin a UTF-8 sequence: ASCII, or a lead byte. The
      others (0x80 to 0xBF) only ever continue one. */
  predicate CodeStart(c: Byte)
  {
    c < '\U{80}' || '\U{C0}' <= c
  }

  /** The three-byte UTF-8 encodings of U+1680, U+2000 to U+200A, U+2028,
      U+2029, U+202F, U+205F and U+3000. */
  predicate WideSpace(a: Byte, b: Byte, c: Byte)
  {
    || (a == '\U{E1}' && b == '\U{9A}' && c == '\U{80}')
    || (a == '\U{E2}' && b == '\U{80}' && ('\U{80}' <= c <= '\U{8A}' || c == '\U{A8}' || c == '\U{A9}' || c == '\U{AF}'))
    || (a == '\U{E2}' && b == '\U{81}' && c == '\U{9F}')
    || (a == '\U{E3}' && b == '\U{80}' && c == '\U{80}')
  }

  /** The first `k` bytes of `s` are the UTF-8 encoding of one character
      unicode.IsSpace accepts: the ASCII white space, U+0085, U+00A0, or one
      of the wide spaces. */
  predicate StartsWithCode(s: Bytes, k: int)
  {
    || (k == 1 && |s| >= 1 && IsAsciiSpace(s[0]))
    || (k == 2 && |s| >= 2 && s[0] == '\U{C2}' && (s[1] == '\U{85}' || s[1] == '\U{A0}'))
    || (k == 3 && |s| >= 3 && WideSpace(s[0], s[1], s[2]))
  }

  /** The last `k` bytes of `s` encode a white-space character. */
  predicate EndsWithCode(s: Bytes, k: int)
  {
    || (k == 1 && |s| >= 1 && IsAsciiSpace(s[|s| - 1]))
    || (k == 2 && |s| >= 2 && s[|s| - 2] == '\U{C2}' && (s[|s| - 1] == '\U{85}' || s[|s| - 1] == '\U{A0}'))
    || (k == 3 && |s| >= 3 && WideSpace(s[|s| - 3], s[|s| - 2], s[|s| - 1]))
  }

  /** Ending with a code is starting the last `k` bytes with one. */
  lemma EndsWithCodeSuffix(s: Bytes, k: int)
    requires 0 < k <= |s|
    ensures EndsWithCode(s, k) <==> StartsWithCode(s[|s| - k..], k)
  {
  }

  /** `w` is the encoding of one white-space character. */
  predicate SpaceCode(w: Bytes)
  {
    StartsWithCode(w, |w|)
  }

  /** A white-space character starts a UTF-8 sequence and is continued only
      by continuation bytes. */
  lemma CodeShape(s: Bytes, k: int)
    requires StartsWithCode(s, k)
    ensures 1 <= k <= 3 && k <= |s| && CodeStart(s[0])
    ensures forall j :: 1 <= j < k ==> !CodeStart(s[j])
  {
  }

  /** The length of the white-space character `s` starts with, or 0. No
      other prefix of `s` encodes one. */
  function LeadSpace(s: Bytes): (n: nat)
    ensures n <= |s| && n <= 3
    ensures n > 0 ==> StartsWithCode(s, n)
    ensures StartsWithCode(s, 1) ==> n == 1
    ensures StartsWithCode(s, 2) ==> n == 2
    ensures StartsWithCode(s, 3) ==> n == 3
  {
    if StartsWithCode(s, 1) then 1
    else if StartsWithCode(s, 2) then 2
    else if StartsWithCode(s, 3) then 3
    else 0
  }

  /** The length of the white-space character `s` ends with, or 0. No other
      suffix of `s` encodes one. */
  function TrailSpace(s: Bytes): (n: nat)
    ensures n <= |s| && n <= 3
    ensures n > 0 ==> EndsWithCode(s, n)
    ensures EndsWithCode(s, 1) ==> n == 1
    ensures EndsWithCode(s, 2) ==> n == 2
    ensures EndsWithCode(s, 3) ==> n == 3
  {
    if EndsWithCode(s, 1) then 1
    else if EndsWithCode(s, 2) then 2
    else if EndsWithCode(s, 3) then 3
    else 0
  }

  /** `s` is a run of white-space characters. */
  predicate AllSpace(s: Bytes)
    decreases |s|
  {
    s == [] || (LeadSpace(s) > 0 && AllSpace(s[LeadSpace(s)..]))
  }

  /** A white-space character starts at position `i` of `s` and ends within it. */
  predicate SpaceAt(s: Bytes, i: int)
  {
    0 <= i < |s| &&
    (|| IsAsciiSpace(s[i])
     || (i + 1 < |s| && s[i] == '\U{C2}' && (s[i + 1] == '\U{85}' || s[i + 1] == '\U{A0}'))
     || (i + 2 < |s| && WideSpace(s[i], s[i + 1], s[i + 2])))
  }

  /** A white-space character starts at `i` exactly when `s[i..]` leads with one. */
  lemma SpaceAtLead(s: Bytes, i: int)
    requires 0 <= i <= |s|
    ensures SpaceAt(s, i) <==> LeadSpace(s[i..]) > 0
  {
  }

  /** Appending bytes that begin a new UTF-8 sequence neither starts nor ends
      a white-space character inside `w`. */
  lemma SpaceAtBeforeCode(w: Bytes, x: Bytes, i: int)
    requires 0 <= i < |w|
    requires x == [] || CodeStart(x[0])
    ensures SpaceAt(w + x, i) <==> SpaceAt(w, i)
  {
  }

  /** No white-space character starts anywhere in `s`. */
  predicate NoSpace(s: Bytes)
  {
    forall i :: 0 <= i < |s| ==> !SpaceAt(s, i)
  }

  /** A prefix keeps the white space its front holds, and has none that `s` lacks. */
  lemma LeadOfPrefix(s: Bytes, m: nat)
    requires m <= |s|
    ensures LeadSpace(s[..m]) > 0 ==> LeadSpace(s) == LeadSpace(s[..m])
    ensures 0 < LeadSpace(s) <= m ==> LeadSpace(s[..m]) == LeadSpace(s)
  {
    var k := LeadSpace(s[..m]);
    if k > 0 {
      assert StartsWithCode(s, k);
    }
    var l := LeadSpace(s);
    if 0 < l <= m {
      assert StartsWithCode(s[..m], l);
    }
  }

  /** A character that starts inside `w` ends inside it when `x` begins a
      new UTF-8 sequence. */
  lemma LeadBeforeCode(w: Bytes, x: Bytes, i: nat)
    requires i < |w|
    requires x == [] || CodeStart(x[0])
    ensures LeadSpace((w + x)[i..]) == LeadSpace(w[i..])
  {
    var s := (w + x)[i..];
    assert w[i..] == s[..|w| - i];
    var k := LeadSpace(s);
    if k > |w| - i {
      CodeShape(s, k);
      assert false;
    }
    LeadOfPrefix(s, |w| - i);
  }

  /** A white-space character in front of `x` is read as one. */
  lemma LeadOfCode(w: Bytes, x: Bytes)
    requires SpaceCode(w)
    ensures LeadSpace(w + x) == |w| && (w + x)[|w|..] == x
  {
    assert (w + x)[..|w|] == w;
    LeadOfPrefix(w + x, |w|);
  }

  /** The white space ending `y` is the white space ending `x + " " + y`: no
      multi-byte character holds a space byte. */
  lemma TrailAfterSpace(x: Bytes, y: Bytes)
    requires y != []
    ensures TrailSpace(x + " " + y) == TrailSpace(y)
  {
    EndsAfterSpace(x, y, 1);
    EndsAfterSpace(x, y, 2);
    EndsAfterSpace(x, y, 3);
  }

  /** `x + " " + y` ends with a white-space character of `j` bytes exactly
      when `y` does. */
  lemma EndsAfterSpace(x: Bytes, y: Bytes, j: int)
    requires y != [] && 1 <= j <= 3
    ensures EndsWithCode(x + " " + y, j) <==> EndsWithCode(y, j)
  {
    var s := x + " " + y;
    assert |s| == |x| + 1 + |y| && s[|x|] == ' ';
    assert s[|s| - 1] == y[|y| - 1];
    if |y| >= 2 {
      assert s[|s| - 2] == y[|y| - 2];
    }
    if |y| >= 3 {
      assert s[|s| - 3] == y[|y| - 3];
    }
  }

  lemma DropAppend(a: Bytes, b: Bytes, k: nat)
    requires k <= |a|
    ensures (a + b)[k..] == a[k..] + b && (a + b)[..|a|] == a
  {
  }

  /** A run of white space followed by one more white-space character is a run. */
  lemma {:induction false} AllSpaceAppend(a: Bytes, w: Bytes)
    requires AllSpace(a) && SpaceCode(w)
    ensures AllSpace(a + w)
    decreases |a|
  {
    if a == [] {
      LeadOfCode(w, []);
      assert a + w == w + [];
    } else {
      var k := LeadSpace(a);
      var aw := a + w;
      LeadOfPrefix(aw, |a|);
      DropAppend(a, w, |a|);
      DropAppend(a, w, k);
      AllSpaceAppend(a[k..], w);
    }
  }

  /** Length of the leading run of white space. */
  function SpaceRun(s: Bytes): (n: nat)
    ensures n <= |s| && AllSpace(s[..n])
    ensures LeadSpace(s[n..]) == 0
    decreases |s|
  {
    var k := LeadSpace(s);
    if k == 0 then
      assert s[0..] == s;
      0
    else
      var m := SpaceRun(s[k..]);
      LeadOfPrefix(s, k + m);
      assert s[..k + m][k..] == s[k..][..m];
      assert s[k + m..] == s[k..][m..];
      k + m
  }

  /** Length of the leading run of bytes where no white space starts. */
  function WordRun(s: Bytes): (n: nat)
    ensures n <= |s| && NoSpace(s[..n])
    ensures n < |s| ==> SpaceAt(s, n)
    decreases |s|
  {
    if |s| == 0 || SpaceAt(s, 0) then 0
    else
      var m := WordRun(s[1..]);
      var t := s[..m + 1];
      forall i | 0 <= i < |t|
        ensures !SpaceAt(t, i)
      {
        if i > 0 {
          assert !SpaceAt(s[1..][..m], i - 1);
        }
      }
      m + 1
  }

  /** strings.Fields: the maximal runs of bytes holding no white space, in
      order. strings.Fields splits on the ASCII white space alone when the
      input is ASCII and on every unicode.IsSpace character otherwise; the
      ASCII white space is the only white space ASCII input can hold, so both
      paths split where this does. */
  function Fields(s: Bytes): (r: seq<Bytes>)
    ensures AllWords(r)
    decreases |s|
  {
    var t := s[SpaceRun(s)..];
    if t == [] then []
    else
      SpaceAtLead(t, 0);
      assert t[0..] == t;
      var n := WordRun(t);
      var rest := Fields(t[n..]);
      WordsCons(t[..n], rest);
      [t[..n]] + rest
  }

  /** Every field is non-empty and no white space starts in it. */
  predicate AllWords(fs: seq<Bytes>)
  {
    forall k :: 0 <= k < |fs| ==> fs[k] != [] && NoSpace(fs[k])
  }

  lemma WordsCons(w: Bytes, fs: seq<Bytes>)
    requires w != [] && NoSpace(w) && AllWords(fs)
    ensures AllWords([w] + fs)
  {
    forall k | 1 <= k < |fs| + 1
      ensures ([w] + fs)[k] == fs[k - 1]
    {
    }
  }

  /** A word followed by white space is the first field, and splitting
      goes on from the white space. */
  lemma FieldsOfWord(w: Bytes, rest: Bytes)
    requires w != [] && NoSpace(w)
    requires LeadSpace(rest) > 0
    ensures Fields(w + rest) == [w] + Fields(rest)
  {
    var s := w + rest;
    WordRunOf(w, rest);
    SpaceAtBeforeCode(w, rest, 0);
    SpaceAtLead(s, 0);
    assert s[0..] == s;
    assert SpaceRun(s) == 0;
    assert s[..|w|] == w && s[|w|..] == rest;
  }

  /** The first word of `w + rest` is `w` when `rest` starts with white space. */
  lemma {:induction false} WordRunOf(w: Bytes, rest: Bytes)
    requires NoSpace(w)
    requires LeadSpace(rest) > 0
    ensures WordRun(w + rest) == |w|
    ensures rest[0] == (w + rest)[|w|] && CodeStart(rest[0])
    decreases |w|
  {
    CodeShape(rest, LeadSpace(rest));
    if w == [] {
      assert w + rest == rest;
      SpaceAtLead(rest, 0);
      assert rest[0..] == rest;
    } else {
      SpaceAtBeforeCode(w, rest, 0);
      assert (w + rest)[1..] == w[1..] + rest;
      assert forall i :: 0 <= i < |w| - 1 ==> (SpaceAt(w[1..], i) <==> SpaceAt(w, i + 1));
      WordRunOf(w[1..], rest);
    }
  }

  /** White space in front of the fields is skipped. */
  lemma {:induction false} FieldsSkipSpace(sp: Bytes, rest: Bytes)
    requires AllSpace(sp)
    requires LeadSpace(rest) == 0
    ensures Fields(sp + rest) == Fields(rest)
  {
    SpaceRunOf(sp, rest);
    assert (sp + rest)[|sp|..] == rest;
    assert rest[0..] == rest;
  }

  /** The leading white space of `sp + rest` is `sp` when `rest` starts with none. */
  lemma {:induction false} SpaceRunOf(sp: Bytes, rest: Bytes)
    requires AllSpace(sp)
    requires LeadSpace(rest) == 0
    ensures SpaceRun(sp + rest) == |sp|
    decreases |sp|
  {
    if sp == [] {
      assert sp + rest == rest;
    } else {
      var k := LeadSpace(sp);
      LeadOfPrefix(sp + rest, |sp|);
      assert (sp + rest)[..|sp|] == sp;
      assert (sp + rest)[k..] == sp[k..] + rest;
      SpaceRunOf(sp[k..], rest);
    }
  }

  /** strings.TrimSpace: leading and trailing white space removed. Like
      strings.TrimSpace on input holding a byte of 0x80 or above, it trims
      every unicode.IsSpace character; on ASCII input only ASCII white space
      can occur. */
  function TrimSpace(s: Bytes): (r: Bytes)
    ensures LeadSpace(r) == 0 && TrailSpace(r) == 0
    ensures exists i :: Trimmed(s, r, i)
  {
    var lead := SpaceRun(s);
    var t := TrimRight(s[lead..]);
    assert s[lead..][..|t|] == s[lead..lead + |t|];
    assert s[lead + |t|..] == s[lead..][|t|..];
    LeadOfPrefix(s[lead..], |t|);
    assert Trimmed(s, t, lead);
    t
  }

  /** `r` is `s` with white space only removed, `i` bytes of it in front. */
  ghost predicate Trimmed(s: Bytes, r: Bytes, i: int)
  {
    0 <= i <= |s| - |r| && s[i..i + |r|] == r && AllSpace(s[..i]) && AllSpace(s[i + |r|..])
  }

  /** Trailing white space removed. */
  function TrimRight(s: Bytes): (r: Bytes)
    ensures |r| <= |s| && r == s[..|r|] && AllSpace(s[|r|..])
    ensures TrailSpace(r) == 0
    decreases |s|
  {
    var k := TrailSpace(s);
    if k == 0 then
      assert s[|s|..] == [];
      s
    else
      var front := s[..|s| - k];
      var r := TrimRight(front);
      var w := s[|s| - k..];
      EndsWithCodeSuffix(s, k);
      assert s[|r|..] == front[|r|..] + w;
      assert r == s[..|r|];
      AllSpaceAppend(front[|r|..], w);
      r
  }

  /** strings.ReplaceAll(s, "\x00", " ") */
  function ReplaceNul(s: Bytes): (r: Bytes)
    ensures |r| == |s| && NUL !in r
    ensures forall i :: 0 <= i < |s| ==> r[i] == (if s[i] == NUL then ' ' else s[i])
  {
    if |s| == 0 then []
    else [if s[0] == NUL then ' ' else s[0]] + ReplaceNul(s[1..])
  }

  // ---------------------------------------------------------------- integers

  const MaxInt64: int := 0x7FFF_FFFF_FFFF_FFFF
  const MinInt64: int := -0x8000_0000_0000_0000
  const MaxUint64: int := 0xFFFF_FFFF_FFFF_FFFF

  predicate IsDigit(c: Byte)
  {
    '0' <= c <= '9'
  }

  predicate AllDigits(s: Bytes)
  {
    forall i :: 0 <= i < |s| ==> IsDigit(s[i])
  }

  /** Length of the leading run of decimal digits. */
  function DigitRun(s: Bytes): (n: nat)
    ensures n <= |s| && AllDigits(s[..n])
    ensures n < |s| ==> !IsDigit(s[n])
  {
    if |s| == 0 || !IsDigit(s[0]) then 0
    else
      var k := DigitRun(s[1..]);
      assert s[..k + 1] == [s[0]] + s[1..][..k];
      k + 1
  }

  function DigitValue(c: Byte): nat
    requires IsDigit(c)
  {
    c as int - '0' as int
  }

  /** The number a run of decimal digits denotes. */
  function DigitsValue(s: Bytes): nat
    requires AllDigits(s)
  {
    if |s| == 0 then 0
    else DigitsValue(s[..|s| - 1]) * 10 + DigitValue(s[|s| - 1])
  }

  /** What strconv.ParseUint(s, 10, 64) reports. */
  datatype UintResult = UintOk(n: nat) | SyntaxError | RangeError

  /** strconv.ParseUint in base 10: the digits are consumed left to right, so an
      overflow inside the leading digit run is reported before any later
      non-digit byte. */
  function ParseUint(s: Bytes): (r: UintResult)
    ensures r.UintOk? ==> r.n <= MaxUint64 && AllDigits(s) && r.n == DigitsValue(s)
    ensures r.UintOk? <==> (s != [] && AllDigits(s) && DigitsValue(s) <= MaxUint64)
  {
    if s == [] then SyntaxError
    else
      var n := DigitRun(s);
      var v := DigitsValue(s[..n]);
      assert n == |s| ==> s[..n] == s;
      if v > MaxUint64 then RangeError
      else if n < |s| then SyntaxError
      else UintOk(v)
  }

  /** The value and the error flag strconv.Atoi returns (`ok` is `err == nil`).
      On a range error the value is clamped to the int64 bounds; on a syntax
      error it is 0. */
  datatype AtoiResult = AtoiResult(value: int, ok: bool)

  /** strconv.Atoi on a 64-bit platform: an optional sign, then decimal digits. */
  function Atoi(s: Bytes): (r: AtoiResult)
    ensures MinInt64 <= r.value <= MaxInt64
    ensures !r.ok && r.value != 0 ==> r.value == MaxInt64 || r.value == MinInt64
  {
    if s == [] then AtoiResult(0, false)
    else
      var neg := s[0] == '-';
      var body := if s[0] == '+' || s[0] == '-' then s[1..] else s;
      match ParseUint(body)
      case SyntaxError => AtoiResult(0, false)
      case RangeError => AtoiResult(if neg then MinInt64 else MaxInt64, false)
      case UintOk(un) =>
        if !neg && un > MaxInt64 then AtoiResult(MaxInt64, false)
        else if neg && un > -MinInt64 then AtoiResult(MinInt64, false)
        else
          var v: int := un;
          AtoiResult(if neg then -v else v, true)
  }

  /** Decimal digits of a natural number, without leading zeros. */
  function FormatNat(n: nat): (r: Bytes)
    ensures r != [] && AllDigits(r)
  {
    if n < 10 then [('0' as int + n) as char]
    else FormatNat(n / 10) + [('0' as int + n % 10) as char]
  }

  /** strconv.Itoa / fmt's %d. */
  function FormatInt(n: int): (r: Bytes)
    ensures r != []
  {
    if n < 0 then "-" + FormatNat(-n) else FormatNat(n)
  }

  lemma {:induction false} FormatNatValue(n: nat)
    ensures DigitsValue(FormatNat(n)) == n
  {
    var r := FormatNat(n);
    if n >= 10 {
      FormatNatValue(n / 10);
      assert r[..|r| - 1] == FormatNat(n / 10);
    }
  }

  /** Atoi reads back every int64 that FormatInt writes. */
  lemma AtoiFormatInt(n: int)
    requires MinInt64 <= n <= MaxInt64
    ensures Atoi(FormatInt(n)) == AtoiResult(n, true)
  {
    var m := if n < 0 then -n else n;
    FormatNatValue(m);
    var d := FormatNat(m);
    if n < 0 {
      assert FormatInt(n)[1..] == d;
    } else {
      assert IsDigit(d[0]);
    }
    assert ParseUint(d) == UintOk(m);
  }
}
