/** Shared vocabulary of the gateway model: optional values, bytes, string
    prefixes, ASCII case folding, decimal numbers and UTF-8 byte lengths. */
module Text {

  datatype Option<+T> = None | Some(value: T)

  /** One octet of a Node.js `Buffer`. */
  type byte = b: int | 0 <= b < 256

  /** `s.startsWith(prefix)` */
  predicate StartsWith(s: string, prefix: string) {
    |prefix| <= |s| && s[..|prefix|] == prefix
  }

  lemma StartsWithConcat(prefix: string, rest: string)
    ensures StartsWith(prefix + rest, prefix)
  {
    assert (prefix + rest)[..|prefix|] == prefix;
  }

  /** A text that starts with `prefix` is `prefix` followed by the rest. */
  lemma PrefixSplit(s: string, prefix: string)
    requires StartsWith(s, prefix)
    ensures s == prefix + s[|prefix|..]
  {
    assert s[..|prefix|] + s[|prefix|..] == s;
  }

  lemma DropPrefix(prefix: string, rest: string)
    ensures StartsWith(prefix + rest, prefix)
    ensures (prefix + rest)[|prefix|..] == rest
  {
    StartsWithConcat(prefix, rest);
  }

  lemma StartsWithCons(c: char, s: string, prefix: string)
    ensures StartsWith([c] + s, [c] + prefix) <==> StartsWith(s, prefix)
  {
    if |prefix| <= |s| {
      var head := ([c] + s)[..|prefix| + 1];
      assert head == [c] + s[..|prefix|];
      assert head[1..] == s[..|prefix|];
      assert ([c] + prefix)[1..] == prefix;
    }
  }

  lemma SplitAt<T>(s: seq<T>, k: int)
    requires 0 <= k <= |s|
    ensures s[..k] + s[k..] == s
  {
  }

  /** Cutting `a + b + c` after `a`. */
  lemma Splice<T>(a: seq<T>, b: seq<T>, c: seq<T>)
    ensures (a + b + c)[..|a|] == a
    ensures (a + b + c)[|a|..] == b + c
  {
    assert (a + b + c)[|a|..] == b + c;
  }

  /** A prefix of `a + [c] + b` that reaches past `c`. */
  lemma PrefixPast<T>(a: seq<T>, c: T, b: seq<T>, k: int)
    requires |a| < k <= |a| + 1 + |b|
    ensures (a + [c] + b)[..k] == a + [c] + b[..k - |a| - 1]
  {
    assert (a + [c] + b)[..k] == a + [c] + b[..k - |a| - 1];
  }

  lemma Regroup<T>(a: seq<T>, b: seq<T>, c: seq<T>, d: seq<T>)
    ensures a + b + (c + d) == a + b + c + d
  {
  }

  /** Overwriting position `k` extends the prefix before it by the new value. */
  lemma UpdatePrefix<T>(s: seq<T>, k: int, v: T, tail: seq<T>)
    requires 0 <= k < |s|
    ensures s[k := v][..k + 1] + tail == s[..k] + ([v] + tail)
    ensures s[k := v][k + 1..] == s[k + 1..]
  {
    assert s[k := v][..k + 1] == s[..k] + [v];
  }

  /** ASCII-only case folding, as used by a non-Unicode `/i` regular expression
      on the letters of `<head`. */
  function LowerChar(c: char): (r: char)
    ensures 'A' <= c <= 'Z' ==> r as int == c as int + 32
    ensures !('A' <= c <= 'Z') ==> r == c
  {
    if 'A' <= c <= 'Z' then (c as int + 32) as char else c
  }

  function Lower(s: string): (r: string)
    ensures |r| == |s|
    ensures forall i :: 0 <= i < |s| ==> r[i] == LowerChar(s[i])
  {
    seq(|s|, i requires 0 <= i < |s| => LowerChar(s[i]))
  }

  // ---------------------------------------------------------------------------
  // Decimal numbers: the text a numeric header value such as `content-length`
  // is sent as.

  function DigitChar(d: nat): (c: char)
    requires d < 10
    ensures '0' <= c <= '9' && c as int - '0' as int == d
  {
    (d + '0' as int) as char
  }

  /** `String(n)` for a non-negative integer */
  function Decimal(n: nat): (s: string)
    ensures |s| > 0
    ensures forall i :: 0 <= i < |s| ==> '0' <= s[i] <= '9'
    ensures n > 0 ==> s[0] != '0'
  {
    if n < 10 then [DigitChar(n)] else Decimal(n / 10) + [DigitChar(n % 10)]
  }

  /** The value of a string of decimal digits. */
  function ParseDecimal(s: string): nat
    requires forall i :: 0 <= i < |s| ==> '0' <= s[i] <= '9'
  {
    if s == [] then 0
    else ParseDecimal(s[..|s| - 1]) * 10 + (s[|s| - 1] as int - '0' as int)
  }

  /** A numeric header value reads back as the number that was set. */
  lemma {:induction false} DecimalRoundTrip(n: nat)
    ensures ParseDecimal(Decimal(n)) == n
  {
    if n >= 10 {
      var s := Decimal(n);
      assert s[..|s| - 1] == Decimal(n / 10);
      DecimalRoundTrip(n / 10);
    }
  }

  // ---------------------------------------------------------------------------
  // UTF-8, the encoding `Buffer.byteLength` and `res.write` use for strings.

  function Utf8Char(c: char): (bs: seq<byte>)
    ensures 1 <= |bs| <= 4
    ensures c as int < 0x80 <==> |bs| == 1
    ensures c as int < 0x80 ==> bs == [c as int]
  {
    var cp := c as int;
    if cp < 0x80 then [cp]
    else if cp < 0x800 then [0xC0 + cp / 64, 0x80 + cp % 64]
    else if cp < 0x10000 then [0xE0 + cp / 4096, 0x80 + (cp / 64) % 64, 0x80 + cp % 64]
    else [0xF0 + cp / 262144, 0x80 + (cp / 4096) % 64, 0x80 + (cp / 64) % 64, 0x80 + cp % 64]
  }

  function Utf8(s: string): seq<byte> {
    if s == [] then [] else Utf8Char(s[0]) + Utf8(s[1..])
  }

  /** Encoding is a homomorphism, so the byte length of a spliced string is the
      sum of the byte lengths of its parts. */
  lemma {:induction false} Utf8Append(a: string, b: string)
    ensures Utf8(a + b) == Utf8(a) + Utf8(b)
  {
    if a == [] {
      assert a + b == b;
    } else {
      assert (a + b)[0] == a[0];
      assert (a + b)[1..] == a[1..] + b;
      Utf8Append(a[1..], b);
    }
  }

  /** Splicing `x` and `y` into a text adds exactly their byte lengths. */
  lemma Utf8Splice(pre: string, x: string, y: string, post: string)
    ensures |Utf8(pre + x + y + post)| == |Utf8(pre + post)| + |Utf8(x)| + |Utf8(y)|
  {
    Utf8Append(pre + x + y, post);
    Utf8Append(pre + x, y);
    Utf8Append(pre, x);
    Utf8Append(pre, post);
  }

  // ---------------------------------------------------------------------------
  // Chunked bodies

  /** `Buffer.concat` of all chunks, in order. */
  function Concat(chunks: seq<seq<byte>>): seq<byte> {
    if chunks == [] then [] else Concat(chunks[..|chunks| - 1]) + chunks[|chunks| - 1]
  }

  lemma {:induction false} ConcatLength(chunks: seq<seq<byte>>, k: nat)
    requires k <= |chunks|
    ensures |Concat(chunks[..k])| <= |Concat(chunks)|
    ensures Concat(chunks)[..|Concat(chunks[..k])|] == Concat(chunks[..k])
  {
    if k < |chunks| {
      var init := chunks[..|chunks| - 1];
      assert init[..k] == chunks[..k];
      ConcatLength(init, k);
      assert chunks[..|chunks|] == chunks;
    } else {
      assert chunks[..k] == chunks;
    }
  }
}
