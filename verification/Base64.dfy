// `btoa` and `atob`: the base64 encoding of section 4 of RFC 4648, and the forgiving decoder of browsers.
module Base64 {
  import opened Common

  newtype Byte = b: nat | b < 256
  newtype Sextet = v: nat | v < 64

  predicate Latin1(s: string) {
    forall i :: 0 <= i < |s| ==> s[i] as nat < 256
  }

  function Symbol(v: Sextet): char {
    if v < 26 then 'A' + v as char
    else if v < 52 then 'a' + (v - 26) as char
    else if v < 62 then '0' + (v - 52) as char
    else if v == 62 then '+' else '/'
  }

  function SymbolValue(c: char): Option<Sextet> {
    if 'A' <= c <= 'Z' then Some((c - 'A') as Sextet)
    else if 'a' <= c <= 'z' then Some((c - 'a') as Sextet + 26)
    else if '0' <= c <= '9' then Some((c - '0') as Sextet + 52)
    else if c == '+' then Some(62)
    else if c == '/' then Some(63)
    else None
  }

  // ---- Three bytes as four sextets ----

  function First(a: Byte): Sextet { (a as nat / 4) as Sextet }

  function Second(a: Byte, b: Byte): Sextet { (a as nat % 4 * 16 + b as nat / 16) as Sextet }

  function Third(b: Byte, c: Byte): Sextet { (b as nat % 16 * 4 + c as nat / 64) as Sextet }

  function Fourth(c: Byte): Sextet { (c as nat % 64) as Sextet }

  function High(p: Sextet, q: Sextet): Byte { (p as nat * 4 + q as nat / 16) as Byte }

  function Middle(q: Sextet, r: Sextet): Byte { (q as nat % 16 * 16 + r as nat / 4) as Byte }

  function Low(r: Sextet, t: Sextet): Byte { (r as nat % 4 * 64 + t as nat) as Byte }

  function Sextets(s: seq<Byte>): seq<Sextet>
    decreases |s|
  {
    if s == [] then []
    else if |s| == 1 then [First(s[0]), Second(s[0], 0)]
    else if |s| == 2 then [First(s[0]), Second(s[0], s[1]), Third(s[1], 0)]
    else [First(s[0]), Second(s[0], s[1]), Third(s[1], s[2]), Fourth(s[2])] + Sextets(s[3..])
  }

  /** The left-over bits of a last incomplete group are dropped. */
  function Bytes(v: seq<Sextet>): seq<Byte>
    requires |v| % 4 != 1
    decreases |v|
  {
    if v == [] then []
    else if |v| == 2 then [High(v[0], v[1])]
    else if |v| == 3 then [High(v[0], v[1]), Middle(v[1], v[2])]
    else [High(v[0], v[1]), Middle(v[1], v[2]), Low(v[2], v[3])] + Bytes(v[4..])
  }

  lemma GroupRoundTrip(a: Byte, b: Byte, c: Byte)
    ensures High(First(a), Second(a, b)) == a
    ensures Middle(Second(a, b), Third(b, c)) == b
    ensures Low(Third(b, c), Fourth(c)) == c
  {
  }

  lemma {:induction false} SextetCount(s: seq<Byte>)
    ensures |Sextets(s)| % 4 == if |s| % 3 == 0 then 0 else |s| % 3 + 1
    ensures s != [] ==> Sextets(s) != []
    decreases |s|
  {
    if |s| >= 3 {
      SextetCount(s[3..]);
      assert |Sextets(s)| == 4 + |Sextets(s[3..])| && |s| % 3 == |s[3..]| % 3;
    }
  }

  lemma BytesOfGroup(p: Sextet, q: Sextet, r: Sextet, t: Sextet, rest: seq<Sextet>)
    requires |rest| % 4 != 1
    ensures Bytes([p, q, r, t] + rest) == [High(p, q), Middle(q, r), Low(r, t)] + Bytes(rest)
  {
  }

  lemma BytesOfOne(a: Byte)
    ensures Bytes(Sextets([a])) == [a]
  {
  }

  lemma BytesOfTwo(a: Byte, b: Byte)
    ensures Bytes(Sextets([a, b])) == [a, b]
  {
    GroupRoundTrip(a, b, 0);
    assert Sextets([a, b]) == [First(a), Second(a, b), Third(b, 0)];
  }

  lemma {:induction false} BytesOfSextets(s: seq<Byte>)
    ensures |Sextets(s)| % 4 != 1 && Bytes(Sextets(s)) == s
    decreases |s|
  {
    SextetCount(s);
    if |s| == 1 {
      assert s == [s[0]];
      BytesOfOne(s[0]);
    } else if |s| == 2 {
      assert s == [s[0], s[1]];
      BytesOfTwo(s[0], s[1]);
    } else if |s| >= 3 {
      var a, b, c, rest := s[0], s[1], s[2], s[3..];
      BytesOfSextets(rest);
      GroupRoundTrip(a, b, c);
      BytesOfGroup(First(a), Second(a, b), Third(b, c), Fourth(c), Sextets(rest));
      assert s == [a, b, c] + rest;
    }
  }

  // ---- Texts ----

  function BytesOf(s: string): seq<Byte>
    requires Latin1(s)
  {
    seq(|s|, i requires 0 <= i < |s| => s[i] as Byte)
  }

  function TextOf(bytes: seq<Byte>): string {
    seq(|bytes|, i requires 0 <= i < |bytes| => bytes[i] as char)
  }

  function Symbols(v: seq<Sextet>): string {
    seq(|v|, i requires 0 <= i < |v| => Symbol(v[i]))
  }

  predicate AllSymbols(s: string) {
    forall i :: 0 <= i < |s| ==> SymbolValue(s[i]).Some?
  }

  function Values(s: string): seq<Sextet>
    requires AllSymbols(s)
  {
    seq(|s|, i requires 0 <= i < |s| => SymbolValue(s[i]).value)
  }

  function Padding(length: nat): string {
    if length % 3 == 0 then "" else if length % 3 == 1 then "==" else "="
  }

  function Btoa(s: string): string
    requires Latin1(s)
  {
    Symbols(Sextets(BytesOf(s))) + Padding(|s|)
  }

  predicate Whitespace(c: char) {
    c == ' ' || c == '\t' || c == '\n' || c == '\r' || c == 12 as char
  }

  function StripWhitespace(s: string): string
    decreases |s|
  {
    if s == "" then "" else (if Whitespace(s[0]) then "" else [s[0]]) + StripWhitespace(s[1..])
  }

  function StripPadding(s: string): string {
    if |s| % 4 != 0 || s == "" || s[|s| - 1] != '=' then s
    else if s[|s| - 2] == '=' then s[..|s| - 2]
    else s[..|s| - 1]
  }

  function Atob(s: string): Option<string> {
    var data := StripPadding(StripWhitespace(s));
    if |data| % 4 == 1 || !AllSymbols(data) then None else Some(TextOf(Bytes(Values(data))))
  }

  // ---- Round trip ----

  lemma ValuesOfSymbols(v: seq<Sextet>)
    ensures AllSymbols(Symbols(v)) && Values(Symbols(v)) == v
    ensures forall i :: 0 <= i < |v| ==> Symbols(v)[i] != '=' && !Whitespace(Symbols(v)[i])
  {
  }

  lemma {:induction false} NothingToStrip(s: string)
    requires forall i :: 0 <= i < |s| ==> !Whitespace(s[i])
    ensures StripWhitespace(s) == s
    decreases |s|
  {
    if s != "" {
      NothingToStrip(s[1..]);
    }
  }

  lemma PaddingIsStripped(data: string, length: nat)
    requires forall i :: 0 <= i < |data| ==> data[i] != '='
    requires |data| % 4 == (if length % 3 == 0 then 0 else length % 3 + 1)
    ensures StripPadding(data + Padding(length)) == data
  {
  }

  /** Every Latin-1 text survives encoding and decoding. */
  lemma AtobBtoa(s: string)
    requires Latin1(s)
    ensures Atob(Btoa(s)) == Some(s)
  {
    var v := Sextets(BytesOf(s));
    var data := Symbols(v);
    SextetCount(BytesOf(s));
    BytesOfSextets(BytesOf(s));
    ValuesOfSymbols(v);
    NothingToStrip(Btoa(s));
    PaddingIsStripped(data, |s|);
    assert TextOf(BytesOf(s)) == s;
  }

  // ---- The alphabet ----

  lemma VectorOfOne(a: char, text: string)
    requires a as nat < 256 && text == [Symbol(First(a as Byte)), Symbol(Second(a as Byte, 0)), '=', '=']
    ensures Btoa([a]) == text
  {
    assert BytesOf([a]) == [a as Byte];
    assert Sextets([a as Byte]) == [First(a as Byte), Second(a as Byte, 0)];
  }

  lemma VectorOfTwo(a: char, b: char, text: string)
    requires a as nat < 256 && b as nat < 256
    requires text == [Symbol(First(a as Byte)), Symbol(Second(a as Byte, b as Byte)), Symbol(Third(b as Byte, 0)), '=']
    ensures Btoa([a, b]) == text
  {
    assert BytesOf([a, b]) == [a as Byte, b as Byte];
    assert Sextets([a as Byte, b as Byte]) == [First(a as Byte), Second(a as Byte, b as Byte), Third(b as Byte, 0)];
  }

  lemma VectorOfFour()
    ensures Btoa("foo") == "Zm9v" && Btoa("foob") == "Zm9vYg=="
  {
    var f, o, b: Byte := 102, 111, 98;
    assert BytesOf("foo") == [f, o, o] && BytesOf("foob") == [f, o, o, b];
    assert [f, o, o][3..] == [] && [f, o, o, b][3..] == [b];
    assert Sextets([f, o, o]) == [First(f), Second(f, o), Third(o, o), Fourth(o)] + Sextets([]);
    assert Sextets([f, o, o, b]) == [First(f), Second(f, o), Third(o, o), Fourth(o)] + Sextets([b]);
    assert Sextets([f, o, o]) == [25, 38, 61, 47];
    assert Sextets([f, o, o, b]) == [25, 38, 61, 47, 24, 32];
  }

  /** The test vectors of section 10 of RFC 4648, and one that needs the last two symbols. */
  lemma TestVectors()
    ensures Btoa("") == "" && Btoa("f") == "Zg==" && Btoa("fo") == "Zm8=" && Btoa("foo") == "Zm9v"
    ensures Btoa("foob") == "Zm9vYg==" && Btoa([251 as char, 255 as char]) == "+/8="
  {
    VectorOfOne('f', "Zg==");
    VectorOfTwo('f', 'o', "Zm8=");
    VectorOfTwo(251 as char, 255 as char, "+/8=");
    VectorOfFour();
  }

  lemma {:induction false} StripKeeps(s: string, i: nat)
    requires i < |s| && !Whitespace(s[i])
    ensures s[i] in StripWhitespace(s)
    decreases |s|
  {
    if i > 0 {
      StripKeeps(s[1..], i - 1);
    }
  }

  /** A character outside the alphabet, other than blanks and the padding, is never decoded. */
  lemma AtobRefusesOtherText(s: string, i: nat)
    requires i < |s| && s[i] != '=' && s[i] !in " \t\n\r" && s[i] as int != 12
    requires !('A' <= s[i] <= 'Z') && !('a' <= s[i] <= 'z') && !('0' <= s[i] <= '9') && s[i] != '+' && s[i] != '/'
    ensures Atob(s) == None
  {
    StripKeeps(s, i);
    var text := StripWhitespace(s);
    var k :| 0 <= k < |text| && text[k] == s[i];
    assert k < |StripPadding(text)| && StripPadding(text)[k] == s[i];
  }

  lemma {:induction false} BlanksAreStripped(before: string, blank: char, rest: string)
    requires blank in " \t\n\r" || blank as int == 12
    ensures StripWhitespace(before + [blank] + rest) == StripWhitespace(before + rest)
    decreases |before|
  {
    if before == "" {
      assert ([] + [blank] + rest)[1..] == rest == "" + rest;
    } else {
      assert (before + [blank] + rest)[1..] == before[1..] + [blank] + rest;
      assert (before + rest)[1..] == before[1..] + rest;
      BlanksAreStripped(before[1..], blank, rest);
    }
  }

  /** Blanks may stand anywhere in the text, a form feed (code 12) among them. */
  lemma AtobIgnoresBlanks(before: string, blank: char, rest: string)
    requires blank in " \t\n\r" || blank as int == 12
    ensures Atob(before + [blank] + rest) == Atob(before + rest)
  {
    BlanksAreStripped(before, blank, rest);
  }
}
