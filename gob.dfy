/** The encoder behind internal/gob.go. The model replaces the gob wire format by a
    count- and length-prefixed encoding into integer cells. Like gob it never yields an
    empty blob and decodes one value, ignoring what follows; what the core relies on is
    that decoding undoes encoding. */
module Gob {
  import opened Outcome
  import opened Scripts

  type Blob = seq<int>

  /** The integers that are code points of a `char`. */
  predicate IsScalar(n: int) {
    0 <= n < 0xD800 || 0xE000 <= n < 0x11_0000
  }

  function EncodeString(s: string): (b: Blob)
    ensures |b| == |s|
  {
    if s == [] then [] else [s[0] as int] + EncodeString(s[1..])
  }

  /** Reading code points back; a cell that is no code point fails. What decodes is
      exactly the encoding of what it decodes to. */
  function DecodeString(b: Blob): (r: Option<string>)
    ensures r.Some? ==> EncodeString(r.value) == b
  {
    if b == [] then Some([])
    else if !IsScalar(b[0]) then None
    else match DecodeString(b[1..])
      case None => None
      case Some(rest) =>
        var s := [b[0] as char] + rest;
        assert s[0] as int == b[0] && s[1..] == rest;
        Some(s)
  }

  /** `gobEncode` of a `[]string`: the number of strings, then each string as its length
      followed by its code points. Like a gob stream, the encoding is never empty. */
  function Encode(vs: seq<string>): (b: Blob)
    ensures |b| > |vs|
  {
    [|vs|] + Items(vs)
  }

  /** The strings of an encoding, one length cell and the code points each. */
  function Items(vs: seq<string>): (b: Blob)
    ensures |b| >= |vs|
  {
    if vs == [] then [] else [|vs[0]|] + EncodeString(vs[0]) + Items(vs[1..])
  }

  /** `gobDecodeStringSlice`: read the count, then that many strings. As with
      `gob.Decoder.Decode`, which reads one value, cells after them are ignored; an empty
      or truncated blob fails. */
  function Decode(b: Blob): (r: Option<seq<string>>)
    ensures r.Some? ==> b != [] && |r.value| == b[0] < |b|
  {
    if b == [] || b[0] < 0 then None else DecodeItems(b[1..], b[0])
  }

  /** Reading `n` length-prefixed strings off the front of `b`. */
  function DecodeItems(b: Blob, n: nat): (r: Option<seq<string>>)
    ensures r.Some? ==> |r.value| == n <= |b|
    decreases n
  {
    if n == 0 then Some([])
    else if b == [] then None
    else
      var len := b[0];
      if len < 0 || |b| - 1 < len then None
      else match DecodeString(b[1..1 + len])
        case None => None
        case Some(s) =>
          match DecodeItems(b[1 + len..], n - 1)
          case None => None
          case Some(rest) => Some([s] + rest)
  }

  lemma {:induction false} DecodeEncodeString(s: string)
    ensures DecodeString(EncodeString(s)) == Some(s)
  {
    if s != [] {
      var b := EncodeString(s);
      assert b[1..] == EncodeString(s[1..]);
      DecodeEncodeString(s[1..]);
      assert [s[0]] + s[1..] == s;
    }
  }

  lemma ItemsCons(s: string, rest: seq<string>)
    ensures Items([s] + rest) == [|s|] + EncodeString(s) + Items(rest)
  {
    var vs := [s] + rest;
    assert vs[0] == s && vs[1..] == rest;
  }

  /** Reading one length-prefixed string off the front of a blob. */
  lemma DecodeItemsCons(s: string, rest: Blob, n: nat)
    ensures DecodeItems([|s|] + EncodeString(s) + rest, n + 1) == match DecodeItems(rest, n)
      case None => None
      case Some(vs) => Some([s] + vs)
  {
    var b := [|s|] + EncodeString(s) + rest;
    assert b[1..1 + |s|] == EncodeString(s);
    assert b[1 + |s|..] == rest;
    DecodeEncodeString(s);
  }

  lemma ItemsThen(s: string, rest: seq<string>, t: Blob)
    ensures Items([s] + rest) + t == [|s|] + EncodeString(s) + (Items(rest) + t)
  {
    ItemsCons(s, rest);
  }

  lemma {:induction false} DecodeItemsTrailing(vs: seq<string>, t: Blob)
    ensures DecodeItems(Items(vs) + t, |vs|) == Some(vs)
  {
    if vs != [] {
      var s, rest := vs[0], vs[1..];
      assert vs == [s] + rest;
      ItemsThen(s, rest, t);
      DecodeItemsCons(s, Items(rest) + t, |rest|);
      DecodeItemsTrailing(rest, t);
    }
  }

  /** Decoding reads one encoded slice and ignores whatever follows it, as
      `gob.Decoder.Decode` reads one value from its stream. */
  lemma DecodeIgnoresTrailing(vs: seq<string>, t: Blob)
    ensures Decode(Encode(vs) + t) == Some(vs)
  {
    var b := Encode(vs) + t;
    assert b[0] == |vs| && b[1..] == Items(vs) + t;
    DecodeItemsTrailing(vs, t);
  }

  /** Decoding undoes encoding. */
  lemma DecodeEncode(vs: seq<string>)
    ensures Decode(Encode(vs)) == Some(vs)
  {
    DecodeIgnoresTrailing(vs, []);
    assert Encode(vs) + [] == Encode(vs);
  }

  /** So two different slices never share an encoding. */
  lemma EncodeInjective(a: seq<string>, b: seq<string>)
    requires Encode(a) == Encode(b)
    ensures a == b
  {
    DecodeEncode(a);
    DecodeEncode(b);
  }

  /** `gobEncode(script)`, as the encoding of the script's fields in declaration order:
      the main table, the number of allowed domains and the domains, then each pipeline
      item. Different scripts give different blobs (EncodeScriptInjective). */
  function EncodeScript(s: Script): (b: Blob)
    ensures Decode(b) == Some(ScriptFields(s))
  {
    DecodeEncode(ScriptFields(s));
    Encode(ScriptFields(s))
  }

  function ScriptFields(s: Script): seq<string> {
    MainFields(s.main) + s.main.allowedDomains + PipelineFields(s.pipeline)
  }

  function MainFields(m: ScriptMain): (r: seq<string>)
    ensures |r| == 6
  {
    [m.url, m.file, m.format, m.userAgent, Decimal(m.delay), Decimal(|m.allowedDomains|)]
  }

  function ItemFields(p: PipelineItem): (r: seq<string>)
    ensures |r| == 5
  {
    [p.selector, p.action, p.attribute, p.column, if p.visitOnce then "true" else "false"]
  }

  function PipelineFields(items: seq<PipelineItem>): (r: seq<string>)
    ensures |r| == 5 * |items|
  {
    if items == [] then [] else ItemFields(items[0]) + PipelineFields(items[1..])
  }

  /** `n` in decimal, with a leading '-' when negative. */
  function Decimal(n: int): string {
    if n < 0 then "-" + Digits(-n) else Digits(n)
  }

  function Digits(n: nat): (r: string)
    ensures |r| >= 1 && forall i :: 0 <= i < |r| ==> '0' <= r[i] <= '9'
  {
    if n < 10 then [DigitChar(n)] else Digits(n / 10) + [DigitChar(n % 10)]
  }

  function DigitChar(d: nat): (c: char)
    requires d < 10
    ensures c as int == '0' as int + d
  {
    "0123456789"[d]
  }

  /** The script blob identifies the script: two scripts with the same blob are equal. */
  lemma EncodeScriptInjective(s: Script, t: Script)
    requires EncodeScript(s) == EncodeScript(t)
    ensures s == t
  {
    EncodeInjective(ScriptFields(s), ScriptFields(t));
    ScriptFieldsInjective(s, t);
  }

  lemma ScriptFieldsInjective(s: Script, t: Script)
    requires ScriptFields(s) == ScriptFields(t)
    ensures s == t
  {
    var f, m, n := ScriptFields(s), s.main, t.main;
    var k := |m.allowedDomains|;
    assert f[..6] == MainFields(m) && f[..6] == MainFields(n);
    DecimalInjective(m.delay, n.delay);
    DecimalInjective(k, |n.allowedDomains|);
    assert f[6..6 + k] == m.allowedDomains == n.allowedDomains;
    assert f[6 + k..] == PipelineFields(s.pipeline) == PipelineFields(t.pipeline);
    PipelineFieldsInjective(s.pipeline, t.pipeline);
  }

  lemma {:induction false} PipelineFieldsInjective(p: seq<PipelineItem>, q: seq<PipelineItem>)
    requires PipelineFields(p) == PipelineFields(q)
    ensures p == q
  {
    if p != [] {
      var f := PipelineFields(p);
      assert f[..5] == ItemFields(p[0]) == ItemFields(q[0]);
      assert "true" != "false";
      assert f[5..] == PipelineFields(p[1..]) == PipelineFields(q[1..]);
      PipelineFieldsInjective(p[1..], q[1..]);
      assert p == [p[0]] + p[1..] && q == [q[0]] + q[1..];
    }
  }

  lemma DecimalInjective(a: int, b: int)
    requires Decimal(a) == Decimal(b)
    ensures a == b
  {
    assert (Decimal(a)[0] == '-') == (a < 0);
    assert (Decimal(b)[0] == '-') == (b < 0);
    if a < 0 {
      assert Decimal(a)[1..] == Digits(-a) && Decimal(b)[1..] == Digits(-b);
      DigitsInjective(-a, -b);
    } else {
      DigitsInjective(a, b);
    }
  }

  lemma {:induction false} DigitsInjective(a: nat, b: nat)
    requires Digits(a) == Digits(b)
    ensures a == b
  {
    var d := Digits(a);
    assert (|d| == 1) == (a < 10) == (b < 10);
    assert d[|d| - 1] == DigitChar(a % 10) == DigitChar(b % 10);
    if a >= 10 {
      assert d[..|d| - 1] == Digits(a / 10) == Digits(b / 10);
      DigitsInjective(a / 10, b / 10);
    }
  }
}
