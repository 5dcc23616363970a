/**
  The one-click unsubscribe token (backend/app/email/unsubscribe.py) and the unpadded base64url that it and
  the access token (backend/app/auth/tokens.py) are written in: RFC 4648 section 5, with the padding left
  off as section 3.2 allows. The HMAC is any function.
 */
module Base64Url {
  import opened Basics

  type Byte = b: int | 0 <= b < 256

  type Sextet = v: int | 0 <= v < 64

  // ---------------------------------------------------------------- encoding

  function Letter(v: Sextet): (c: char)
    ensures Value(c) == Some(v) && c != '=' && c != '.' && c < 128 as char
  {
    if v < 26 then 'A' + v as char
    else if v < 52 then 'a' + (v - 26) as char
    else if v < 62 then '0' + (v - 52) as char
    else if v == 62 then '-'
    else '_'
  }

  function Letters(vs: seq<Sextet>): (s: string)
    ensures |s| == |vs|
  {
    if vs == [] then "" else [Letter(vs[0])] + Letters(vs[1..])
  }

  /** The six bits that begin in one byte and end in the next. */
  function First(x: Byte): Sextet { x / 4 }

  function Second(x: Byte, y: Byte): Sextet { x % 4 * 16 + y / 16 }

  function Third(y: Byte, z: Byte): Sextet { y % 16 * 4 + z / 64 }

  function Fourth(z: Byte): Sextet { z % 64 }

  function Sextets(b: seq<Byte>): seq<Sextet> {
    if b == [] then []
    else if |b| == 1 then [First(b[0]), Second(b[0], 0)]
    else if |b| == 2 then [First(b[0]), Second(b[0], b[1]), Third(b[1], 0)]
    else [First(b[0]), Second(b[0], b[1]), Third(b[1], b[2]), Fourth(b[2])] + Sextets(b[3..])
  }

  function Pad(n: nat): string {
    if n == 0 then "" else ['='] + Pad(n - 1)
  }

  /** The padding that a text of this length lacks. */
  function Missing(length: nat): nat {
    (4 - length % 4) % 4
  }

  /** urlsafe_b64encode */
  function Encode(b: seq<Byte>): string {
    Letters(Sextets(b)) + Pad(Missing(|Sextets(b)|))
  }

  /** rstrip("=") */
  function Strip(s: string): string {
    if s != "" && s[|s| - 1] == '=' then Strip(s[..|s| - 1]) else s
  }

  /** _b64 */
  function Unpadded(b: seq<Byte>): string {
    Strip(Encode(b))
  }

  // ---------------------------------------------------------------- decoding

  /** The value of a character after '-' and '_' are translated to '+' and '/'; None is not in the alphabet. */
  function Value(c: char): (v: Option<Sextet>) {
    if 'A' <= c <= 'Z' then Some((c - 'A') as int)
    else if 'a' <= c <= 'z' then Some((c - 'a') as int + 26)
    else if '0' <= c <= '9' then Some((c - '0') as int + 52)
    else if c == '-' || c == '+' then Some(62)
    else if c == '_' || c == '/' then Some(63)
    else None
  }

  predicate Carried(quad: nat, left: nat) {
    quad <= 3 && left < (if quad == 0 then 1 else if quad == 1 then 64 else if quad == 2 then 16 else 4)
  }

  function Prepend(b: Byte, r: Option<seq<Byte>>): Option<seq<Byte>> {
    match r case None => None case Some(rest) => Some([b] + rest)
  }

  /**
    a2b_base64 when not strict: characters outside the alphabet are skipped, enough padding ends the text,
    and a text that ends inside a group is an error.
   */
  function Scan(s: string, quad: nat, left: nat, pads: nat): Option<seq<Byte>>
    requires Carried(quad, left)
  {
    if s == "" then (if quad == 0 then Some([]) else None)
    else if s[0] == '=' then
      if quad >= 2 && quad + pads + 1 >= 4 then Some([])
      else Scan(s[1..], quad, left, if quad >= 2 then pads + 1 else pads)
    else match Value(s[0])
      case None => Scan(s[1..], quad, left, pads)
      case Some(v) =>
        if quad == 0 then Scan(s[1..], 1, v, 0)
        else if quad == 1 then Prepend(left * 4 + v / 16, Scan(s[1..], 2, v % 16, 0))
        else if quad == 2 then Prepend(left * 16 + v / 4, Scan(s[1..], 3, v % 4, 0))
        else Prepend(left * 64 + v, Scan(s[1..], 0, 0, 0))
  }

  predicate Ascii(s: string) {
    forall i :: 0 <= i < |s| ==> s[i] < 128 as char
  }

  /** _unb64: the missing padding is put back first; None raises. */
  function Decode(s: string): Option<seq<Byte>> {
    if !Ascii(s) then None
    else Scan(s + Pad(Missing(|s|)), 0, 0, 0)
  }

  // ---------------------------------------------------------------- letters

  /** Text in the alphabet, which has no padding sign and no dot. */
  predicate Plain(s: string) {
    forall i :: 0 <= i < |s| ==> s[i] != '=' && s[i] != '.' && s[i] < 128 as char
  }

  lemma {:induction false} LettersPlain(vs: seq<Sextet>)
    ensures Plain(Letters(vs))
  {
    if vs != [] {
      LettersPlain(vs[1..]);
    }
  }

  lemma PadEnds(n: nat)
    requires n > 0
    ensures Pad(n) == Pad(n - 1) + ['=']
  {
    if n > 1 {
      PadEnds(n - 1);
    }
  }

  lemma {:induction false} StripPadding(s: string, n: nat)
    requires Plain(s)
    ensures Strip(s + Pad(n)) == s
  {
    if n == 0 {
      assert s + Pad(0) == s;
    } else {
      PadEnds(n);
      assert s + Pad(n) == (s + Pad(n - 1)) + ['='];
      assert (s + Pad(n))[..|s + Pad(n)| - 1] == s + Pad(n - 1);
      StripPadding(s, n - 1);
    }
  }

  lemma UnpaddedIs(b: seq<Byte>)
    ensures Unpadded(b) == Letters(Sextets(b)) && Plain(Unpadded(b))
  {
    LettersPlain(Sextets(b));
    StripPadding(Letters(Sextets(b)), Missing(|Sextets(b)|));
  }

  // ---------------------------------------------------------------- the round trip

  /** Where one value leaves the scan, and what it completes. */
  function NextQuad(quad: nat): nat {
    if quad == 3 then 0 else quad + 1
  }

  function NextLeft(quad: nat, v: Sextet): (left: nat)
    ensures quad <= 3 ==> Carried(NextQuad(quad), left)
  {
    if quad == 0 then v else if quad == 1 then v % 16 else if quad == 2 then v % 4 else 0
  }

  function Out(quad: nat, left: nat, v: Sextet): seq<Byte>
    requires Carried(quad, left)
  {
    if quad == 0 then []
    else if quad == 1 then [left * 4 + v / 16]
    else if quad == 2 then [left * 16 + v / 4]
    else [left * 64 + v]
  }

  /** What scanning letters and their padding comes to, on the values alone. */
  function Join(vs: seq<Sextet>, quad: nat, left: nat): seq<Byte>
    requires Carried(quad, left)
  {
    if vs == [] then []
    else Out(quad, left, vs[0]) + Join(vs[1..], NextQuad(quad), NextLeft(quad, vs[0]))
  }

  lemma ScanPadding(quad: nat, left: nat)
    requires Carried(quad, left) && quad != 1
    ensures Scan(Pad(Missing(quad)), quad, left, 0) == Some([])
  {
    assert quad == 2 ==> Pad(2)[1..] == Pad(1) && Pad(2)[0] == '=';
  }

  lemma ScanLetter(v: Sextet, t: string, quad: nat, left: nat, rest: seq<Byte>)
    requires Carried(quad, left) && Scan(t, NextQuad(quad), NextLeft(quad, v), 0) == Some(rest)
    ensures Scan([Letter(v)] + t, quad, left, 0) == Some(Out(quad, left, v) + rest)
  {
    assert ([Letter(v)] + t)[1..] == t;
    assert [] + rest == rest;
  }

  lemma MissingKept(quad: nat, n: nat)
    requires quad <= 3 && n > 0
    ensures Missing(NextQuad(quad) + n - 1) == Missing(quad + n)
    ensures (quad + n) % 4 == (NextQuad(quad) + n - 1) % 4
  {
  }

  lemma {:induction false} ScanLetters(vs: seq<Sextet>, quad: nat, left: nat)
    requires Carried(quad, left) && (quad + |vs|) % 4 != 1
    ensures Scan(Letters(vs) + Pad(Missing(quad + |vs|)), quad, left, 0) == Some(Join(vs, quad, left))
    decreases |vs|
  {
    var pad := Pad(Missing(quad + |vs|));
    if vs == [] {
      ScanPadding(quad, left);
      assert Letters(vs) + pad == pad;
    } else {
      var v, q := vs[0], NextQuad(quad);
      assert Letters(vs) + pad == [Letter(v)] + (Letters(vs[1..]) + pad);
      MissingKept(quad, |vs|);
      ScanLetters(vs[1..], q, NextLeft(quad, v));
      ScanLetter(v, Letters(vs[1..]) + pad, quad, left, Join(vs[1..], q, NextLeft(quad, v)));
    }
  }

  /** The bytes come together again from their bits. */
  lemma Merge(x: Byte, y: Byte, z: Byte)
    ensures First(x) * 4 + Second(x, y) / 16 == x
    ensures Second(x, y) % 16 * 16 + Third(y, z) / 4 == y
    ensures Third(y, z) % 4 * 64 + Fourth(z) == z
  {
  }

  lemma JoinOne(v: Sextet, vs: seq<Sextet>, quad: nat, left: nat)
    requires Carried(quad, left)
    ensures Join([v] + vs, quad, left) == Out(quad, left, v) + Join(vs, NextQuad(quad), NextLeft(quad, v))
  {
    assert ([v] + vs)[1..] == vs;
  }

  /** What each value of a group completes. */
  lemma OutIs(x: Byte, y: Byte, z: Byte)
    ensures Carried(1, First(x)) && Out(1, First(x), Second(x, y)) == [x]
    ensures Carried(2, Second(x, y) % 16) && Out(2, Second(x, y) % 16, Third(y, z)) == [y]
    ensures Carried(3, Third(y, z) % 4) && Out(3, Third(y, z) % 4, Fourth(z)) == [z]
  {
    Merge(x, y, z);
  }

  lemma JoinTwo(x: Byte, y: Byte, vs: seq<Sextet>)
    ensures Join([First(x), Second(x, y)] + vs, 0, 0) == [x] + Join(vs, 2, Second(x, y) % 16)
  {
    OutIs(x, y, 0);
    var v, w := First(x), Second(x, y);
    assert [v, w] + vs == [v] + ([w] + vs);
    JoinOne(v, [w] + vs, 0, 0);
    JoinOne(w, vs, 1, v);
  }

  lemma JoinGroup(x: Byte, y: Byte, z: Byte, vs: seq<Sextet>)
    ensures Join([First(x), Second(x, y), Third(y, z), Fourth(z)] + vs, 0, 0) == [x, y, z] + Join(vs, 0, 0)
  {
    OutIs(x, y, z);
    var u, v := Third(y, z), Fourth(z);
    assert [First(x), Second(x, y), u, v] + vs == [First(x), Second(x, y)] + ([u] + ([v] + vs));
    JoinTwo(x, y, [u] + ([v] + vs));
    JoinOne(u, [v] + vs, 2, Second(x, y) % 16);
    JoinOne(v, vs, 3, u % 4);
  }

  lemma {:induction false} SextetsSize(b: seq<Byte>)
    ensures |Sextets(b)| % 4 != 1
  {
    if |b| > 2 {
      SextetsSize(b[3..]);
      assert |Sextets(b)| == 4 + |Sextets(b[3..])|;
    }
  }

  lemma JoinOneByte(x: Byte)
    ensures Join([First(x), Second(x, 0)], 0, 0) == [x]
  {
    JoinTwo(x, 0, []);
    assert [First(x), Second(x, 0)] == [First(x), Second(x, 0)] + [];
  }

  lemma JoinThird(x: Byte, y: Byte)
    ensures Join([Third(y, 0)], 2, Second(x, y) % 16) == [y]
  {
    OutIs(x, y, 0);
    JoinOne(Third(y, 0), [], 2, Second(x, y) % 16);
    assert [Third(y, 0)] == [Third(y, 0)] + [];
  }

  lemma JoinTwoBytes(x: Byte, y: Byte)
    ensures Join([First(x), Second(x, y), Third(y, 0)], 0, 0) == [x, y]
  {
    JoinTwo(x, y, [Third(y, 0)]);
    JoinThird(x, y);
    assert [First(x), Second(x, y), Third(y, 0)] == [First(x), Second(x, y)] + [Third(y, 0)];
  }

  lemma {:induction false} JoinSextets(b: seq<Byte>)
    ensures Join(Sextets(b), 0, 0) == b
  {
    if b == [] {
    } else if |b| == 1 {
      JoinOneByte(b[0]);
    } else if |b| == 2 {
      JoinTwoBytes(b[0], b[1]);
      assert [b[0], b[1]] == b;
    } else {
      JoinSextets(b[3..]);
      JoinGroup(b[0], b[1], b[2], Sextets(b[3..]));
      assert [b[0], b[1], b[2]] + b[3..] == b;
    }
  }

  lemma DecodeAscii(s: string, b: seq<Byte>)
    requires Ascii(s) && Scan(s + Pad(Missing(|s|)), 0, 0, 0) == Some(b)
    ensures Decode(s) == Some(b)
  {
  }

  /** Every byte string comes back, and its text has no dot in it. */
  lemma RoundTrip(b: seq<Byte>)
    ensures Decode(Unpadded(b)) == Some(b) && Plain(Unpadded(b))
  {
    UnpaddedIs(b);
    JoinSextets(b);
    SextetsSize(b);
    ScanLetters(Sextets(b), 0, 0);
    DecodeAscii(Unpadded(b), b);
  }
}

module Unsubscribe {
  import opened Basics
  import opened Base64Url

  const SUPPRESSION_KINDS := ["reminder", "recap", "all"]

  /** The keyed digest of a payload under a secret. */
  type Mac = (seq<Byte>, string) -> seq<Byte>

  /** A uuid, by its 32 hexadecimal digits. */
  type Uuid = u: seq<nat> | |u| == 32 && forall i :: 0 <= i < 32 ==> u[i] < 16
    witness seq(32, _ => 0)

  function HexDigit(v: nat): (c: char)
    requires v < 16
    ensures HexValue(c) == Some(v) && c != ':' && c != '-' && c < 128 as char
  {
    if v < 10 then '0' + v as char else 'a' + (v - 10) as char
  }

  function HexValue(c: char): (v: Option<nat>)
    ensures v.Some? ==> v.value < 16
  {
    if '0' <= c <= '9' then Some((c - '0') as nat)
    else if 'a' <= c <= 'f' then Some((c - 'a') as nat + 10)
    else if 'A' <= c <= 'F' then Some((c - 'A') as nat + 10)
    else None
  }

  function Hex(u: seq<nat>): string
    requires forall i :: 0 <= i < |u| ==> u[i] < 16
  {
    seq(|u|, i requires 0 <= i < |u| => HexDigit(u[i]))
  }

  predicate Fits(sizes: seq<nat>, n: nat) {
    sizes == [] || (sizes[0] <= n && Fits(sizes[1..], n - sizes[0]))
  }

  /** Digits with a dash after each group of these sizes. */
  function Dashed(u: seq<nat>, sizes: seq<nat>): string
    requires Fits(sizes, |u|) && forall i :: 0 <= i < |u| ==> u[i] < 16
  {
    if sizes == [] then Hex(u) else Hex(u[..sizes[0]]) + "-" + Dashed(u[sizes[0]..], sizes[1..])
  }

  /** str(uuid) */
  function UuidText(u: Uuid): string {
    UuidFits();
    Dashed(u, UUID_GROUPS)
  }

  const UUID_GROUPS: seq<nat> := [8, 4, 4, 4]

  lemma UuidFits()
    ensures Fits(UUID_GROUPS, 32)
  {
    assert UUID_GROUPS[1..] == [4, 4, 4] && [4, 4, 4][1..] == [4, 4] && [4, 4][1..] == [4] && [4][1..] == [];
    assert Fits([4], 16) && Fits([4, 4], 20) && Fits([4, 4, 4], 24);
  }

  function Dashless(s: string): string {
    if s == "" then "" else (if s[0] == '-' then "" else [s[0]]) + Dashless(s[1..])
  }

  function Digits(s: string): Option<seq<nat>> {
    if s == "" then Some([])
    else match (HexValue(s[0]), Digits(s[1..]))
      case (Some(v), Some(rest)) => Some([v] + rest)
      case _ => None
  }

  /** The plainest reading of a uuid: 32 digits once the dashes are gone. */
  function ParseUuid(s: string): Option<seq<nat>> {
    match Digits(Dashless(s))
    case None => None
    case Some(u) => if |u| == 32 then Some(u) else None
  }

  function Bytes(s: string): seq<Byte>
    requires forall i :: 0 <= i < |s| ==> s[i] < 128 as char
  {
    seq(|s|, i requires 0 <= i < |s| => s[i] as int)
  }

  /** The text of a payload that is ASCII. */
  function Text(b: seq<Byte>): Option<string> {
    if exists i :: 0 <= i < |b| && b[i] >= 128 then None
    else Some(seq(|b|, i requires 0 <= i < |b| && b[i] < 128 => b[i] as char))
  }

  function Before(s: string, c: char): string {
    if s == "" || s[0] == c then "" else [s[0]] + Before(s[1..], c)
  }

  /** partition(c) and split(c, 1): what stands before the first c, and after it. */
  function After(s: string, c: char): string {
    if s == "" then "" else if s[0] == c then s[1..] else After(s[1..], c)
  }

  function Count(s: string, c: char): nat {
    if s == "" then 0 else (if s[0] == c then 1 else 0) + Count(s[1..], c)
  }

  function Payload(u: Uuid, kind: string): string {
    UuidText(u) + ":" + kind
  }

  function PayloadBytes(u: Uuid, kind: string): seq<Byte>
    requires kind in SUPPRESSION_KINDS
  {
    PayloadAscii(u, kind);
    Bytes(Payload(u, kind))
  }

  /** mint_unsubscribe_token under the current secret; an unknown kind raises. */
  function Mint(mac: Mac, u: Uuid, kind: string, secret: string): Option<string> {
    if kind !in SUPPRESSION_KINDS then None
    else
      var payload := PayloadBytes(u, kind);
      Some(Unpadded(payload) + "." + Unpadded(mac(payload, secret)))
  }

  /** The standard library's bytes.decode("utf-8") and uuid.UUID(text); None where they raise. */
  datatype Library = Library(decodeUtf8: seq<Byte> -> Option<string>, uuid: string -> Option<seq<nat>>)

  /** All that is asked of them: ASCII is itself, and str(u) reads back as u. Other spellings may or may not be read. */
  ghost predicate LibraryOk(lib: Library) {
    && (forall b :: Text(b).Some? ==> lib.decodeUtf8(b) == Text(b))
    && (forall u: Uuid :: lib.uuid(UuidText(u)) == Some(u))
  }

  predicate Matches(mac: Mac, payload: seq<Byte>, presented: seq<Byte>, secrets: seq<string>) {
    exists i :: 0 <= i < |secrets| && mac(payload, secrets[i]) == presented
  }

  /** What a verified payload says. */
  function ReadPayload(lib: Library, payload: seq<Byte>): Option<(seq<nat>, string)> {
    match lib.decodeUtf8(payload)
    case None => None
    case Some(text) =>
      match lib.uuid(Before(text, ':'))
      case None => None
      case Some(u) =>
        var kind := After(text, ':');
        if kind in SUPPRESSION_KINDS then Some((u, kind)) else None
  }

  /** parse_unsubscribe_token; None raises, and never says why. */
  function Parse(lib: Library, mac: Mac, token: string, secrets: seq<string>): Option<(seq<nat>, string)> {
    if token == "" || Count(token, '.') != 1 then None
    else match (Decode(Before(token, '.')), Decode(After(token, '.')))
      case (Some(payload), Some(presented)) =>
        if Matches(mac, payload, presented, secrets) then ReadPayload(lib, payload) else None
      case _ => None
  }

  /** The loop runs over every secret, whether or not one has matched already. */
  method VerifyMac(mac: Mac, payload: seq<Byte>, presented: seq<Byte>, secrets: seq<string>) returns (matched: bool)
    ensures matched <==> Matches(mac, payload, presented, secrets)
  {
    matched := false;
    for i := 0 to |secrets|
      invariant matched <==> exists k :: 0 <= k < i && mac(payload, secrets[k]) == presented
    {
      if mac(payload, secrets[i]) == presented {
        matched := true;
      }
    }
  }

  method ParseToken(lib: Library, mac: Mac, token: string, secrets: seq<string>)
    returns (r: Option<(seq<nat>, string)>)
    ensures r == Parse(lib, mac, token, secrets)
  {
    if token == "" || Count(token, '.') != 1 {
      return None;
    }
    var payload, presented := Decode(Before(token, '.')), Decode(After(token, '.'));
    if payload.None? || presented.None? {
      return None;
    }
    var matched := VerifyMac(mac, payload.value, presented.value, secrets);
    return if matched then ReadPayload(lib, payload.value) else None;
  }

  // ---------------------------------------------------------------- the round trip

  lemma KindIs(kind: string)
    requires kind in SUPPRESSION_KINDS
    ensures forall i :: 0 <= i < |kind| ==> kind[i] < 128 as char
  {
    assert kind == "reminder" || kind == "recap" || kind == "all";
  }

  lemma PayloadAscii(u: Uuid, kind: string)
    requires kind in SUPPRESSION_KINDS
    ensures forall i :: 0 <= i < |Payload(u, kind)| ==> Payload(u, kind)[i] < 128 as char
  {
    KindIs(kind);
    UuidRoundTrip(u);
  }

  lemma {:induction false} SplitAt(a: string, b: string, c: char)
    requires c !in a
    ensures Before(a + [c] + b, c) == a && After(a + [c] + b, c) == b && Count(a + [c] + b, c) == 1 + Count(b, c)
  {
    var s := a + [c] + b;
    if a == "" {
      assert s[1..] == b;
    } else {
      assert s[0] == a[0] && s[1..] == a[1..] + [c] + b;
      SplitAt(a[1..], b, c);
      assert [a[0]] + a[1..] == a;
    }
  }

  lemma {:induction false} NoneCounted(s: string, c: char)
    requires c !in s
    ensures Count(s, c) == 0
  {
    if s != "" {
      NoneCounted(s[1..], c);
    }
  }

  lemma {:induction false} DashlessJoin(a: string, b: string)
    ensures Dashless(a + b) == Dashless(a) + Dashless(b)
  {
    if a == "" {
      assert a + b == b;
    } else {
      assert (a + b)[1..] == a[1..] + b;
      DashlessJoin(a[1..], b);
    }
  }

  lemma {:induction false} DashlessHex(u: seq<nat>)
    requires forall i :: 0 <= i < |u| ==> u[i] < 16
    ensures Dashless(Hex(u)) == Hex(u) && Digits(Hex(u)) == Some(u)
  {
    if u == [] {
      assert Hex(u) == "";
    } else {
      assert Hex(u)[0] == HexDigit(u[0]) && Hex(u)[1..] == Hex(u[1..]);
      DashlessHex(u[1..]);
      assert [HexDigit(u[0])] + Hex(u[1..]) == Hex(u);
      assert [u[0]] + u[1..] == u;
    }
  }

  lemma DashlessGroup(u: seq<nat>, rest: string)
    requires forall i :: 0 <= i < |u| ==> u[i] < 16
    ensures Dashless(Hex(u) + "-" + rest) == Hex(u) + Dashless(rest)
  {
    DashlessHex(u);
    DashlessJoin(Hex(u), "-" + rest);
    assert Hex(u) + "-" + rest == Hex(u) + ("-" + rest);
    assert ("-" + rest)[1..] == rest;
  }

  lemma HexJoin(a: seq<nat>, b: seq<nat>)
    requires forall i :: 0 <= i < |a| ==> a[i] < 16
    requires forall i :: 0 <= i < |b| ==> b[i] < 16
    ensures Hex(a + b) == Hex(a) + Hex(b)
  {
  }

  /** Grouped digits are the digits once the dashes are gone. */
  lemma {:induction false} DashlessDashed(u: seq<nat>, sizes: seq<nat>)
    requires Fits(sizes, |u|) && forall i :: 0 <= i < |u| ==> u[i] < 16
    ensures Dashless(Dashed(u, sizes)) == Hex(u)
    decreases |sizes|
  {
    if sizes == [] {
      DashlessHex(u);
    } else {
      var n := sizes[0];
      DashlessDashed(u[n..], sizes[1..]);
      DashlessGroup(u[..n], Dashed(u[n..], sizes[1..]));
      HexJoin(u[..n], u[n..]);
      assert u[..n] + u[n..] == u;
    }
  }

  /** A character of a uuid's text: not the payload's separator, and ASCII. */
  predicate UuidChar(c: char) {
    c != ':' && c < 128 as char
  }

  lemma {:induction false} DashedChars(u: seq<nat>, sizes: seq<nat>)
    requires Fits(sizes, |u|) && forall i :: 0 <= i < |u| ==> u[i] < 16
    ensures forall i :: 0 <= i < |Dashed(u, sizes)| ==> UuidChar(Dashed(u, sizes)[i])
    decreases |sizes|
  {
    if sizes != [] {
      DashedChars(u[sizes[0]..], sizes[1..]);
    }
  }

  lemma UuidRoundTrip(u: Uuid)
    ensures ParseUuid(UuidText(u)) == Some(u) && ':' !in UuidText(u)
    ensures forall i :: 0 <= i < |UuidText(u)| ==> UuidText(u)[i] < 128 as char
  {
    UuidFits();
    DashlessDashed(u, UUID_GROUPS);
    DashedChars(u, UUID_GROUPS);
    DashlessHex(u);
    assert forall i :: 0 <= i < |UuidText(u)| ==> UuidChar(UuidText(u)[i]);
  }

  /** The plainest library will do. */
  lemma PlainLibraryOk()
    ensures LibraryOk(Library(Text, ParseUuid))
  {
    forall u: Uuid ensures ParseUuid(UuidText(u)) == Some(u) {
      UuidRoundTrip(u);
    }
  }

  lemma PayloadRoundTrip(lib: Library, u: Uuid, kind: string)
    requires kind in SUPPRESSION_KINDS && LibraryOk(lib)
    ensures ReadPayload(lib, PayloadBytes(u, kind)) == Some((u, kind))
  {
    PayloadAscii(u, kind);
    var text, bytes := Payload(u, kind), PayloadBytes(u, kind);
    assert forall i :: 0 <= i < |bytes| ==> bytes[i] < 128 && bytes[i] as char == text[i];
    assert Text(bytes).value == text;
    UuidRoundTrip(u);
    SplitAt(UuidText(u), kind, ':');
  }

  /** A minted token names its user and kind for as long as the secret it was minted with is still configured. */
  lemma TokenRoundTrip(lib: Library, mac: Mac, u: Uuid, kind: string, secret: string, later: seq<string>)
    requires LibraryOk(lib) && kind in SUPPRESSION_KINDS && secret in later
    ensures Mint(mac, u, kind, secret).Some?
    ensures Parse(lib, mac, Mint(mac, u, kind, secret).value, later) == Some((u, kind))
  {
    var payload := PayloadBytes(u, kind);
    var digest := mac(payload, secret);
    RoundTrip(payload);
    RoundTrip(digest);
    SplitAt(Unpadded(payload), Unpadded(digest), '.');
    NoneCounted(Unpadded(digest), '.');
    var i :| 0 <= i < |later| && later[i] == secret;
    assert Matches(mac, payload, digest, later);
    PayloadRoundTrip(lib, u, kind);
  }

  // ---------------------------------------------------------------- what is accepted at all

  lemma {:induction false} SplitBack(s: string, c: char)
    requires Count(s, c) == 1
    ensures s == Before(s, c) + [c] + After(s, c) && c !in Before(s, c) && c !in After(s, c)
  {
    if s[0] == c {
      NotCounted(s[1..], c);
      assert s == [c] + s[1..];
    } else {
      SplitBack(s[1..], c);
      assert s == [s[0]] + s[1..];
    }
  }

  lemma {:induction false} NotCounted(s: string, c: char)
    requires Count(s, c) == 0
    ensures c !in s
  {
    if s != "" {
      NotCounted(s[1..], c);
      assert s == [s[0]] + s[1..];
    }
  }

  /** The two parts of a token prove this user and kind: the first names them, the second is its digest under a secret. */
  ghost predicate Proves(lib: Library, mac: Mac, a: string, b: string, secrets: seq<string>, u: seq<nat>, kind: string) {
    && Decode(a).Some? && Decode(b).Some?
    && (exists i :: 0 <= i < |secrets| && mac(Decode(a).value, secrets[i]) == Decode(b).value)
    && lib.decodeUtf8(Decode(a).value).Some?
    && var text := lib.decodeUtf8(Decode(a).value).value;
       lib.uuid(Before(text, ':')) == Some(u) && kind == After(text, ':') && kind in SUPPRESSION_KINDS
  }

  /** A token is accepted, for a user and kind, exactly when it is two parts joined by a dot that prove them. */
  lemma AcceptedExactlyWhen(lib: Library, mac: Mac, token: string, secrets: seq<string>, u: seq<nat>, kind: string)
    ensures Parse(lib, mac, token, secrets) == Some((u, kind)) <==>
            exists a, b :: token == a + "." + b && '.' !in a && '.' !in b && Proves(lib, mac, a, b, secrets, u, kind)
  {
    if Parse(lib, mac, token, secrets) == Some((u, kind)) {
      SplitBack(token, '.');
      assert Proves(lib, mac, Before(token, '.'), After(token, '.'), secrets, u, kind);
    }
    forall a, b | token == a + "." + b && '.' !in a && '.' !in b && Proves(lib, mac, a, b, secrets, u, kind)
      ensures Parse(lib, mac, token, secrets) == Some((u, kind))
    {
      SplitAt(a, b, '.');
      NoneCounted(b, '.');
    }
  }
}
