/** The browser facilities the frontend relies on: encodeURIComponent, the
    URLSearchParams view of the query string, the fetch response shape, and
    the window/sessionStorage state the session bootstrap reads and writes. */
module Web {
  import opened Wrappers
  import Seqs

  /** JavaScript truthiness of an optional string: null and "" are falsy. */
  predicate Truthy(s: Option<string>) {
    s.Some? && s.value != ""
  }

  // ---------------------------------------------------------------------
  // encodeURIComponent (ECMAScript, section 19.2.6.5 of ECMA-262)
  // ---------------------------------------------------------------------

  /** The characters encodeURIComponent leaves as they are. */
  predicate IsUnreserved(c: char) {
    ('A' <= c <= 'Z') || ('a' <= c <= 'z') || ('0' <= c <= '9') ||
    c == '-' || c == '_' || c == '.' || c == '!' || c == '~' || c == '*' ||
    c == '\'' || c == '(' || c == ')'
  }

  function HexDigit(d: nat): (c: char)
    requires d < 16
    ensures IsUnreserved(c)
  {
    if d < 10 then ('0' as int + d) as char else ('A' as int + d - 10) as char
  }

  /** The UTF-8 encoding of one Unicode scalar value. */
  function Utf8(c: char): (bytes: seq<nat>)
    ensures 1 <= |bytes| <= 4
    ensures forall i :: 0 <= i < |bytes| ==> bytes[i] < 256
    ensures |bytes| == 1 <==> (c as int) < 0x80
  {
    var cp := c as int;
    if cp < 0x80 then [cp]
    else if cp < 0x800 then [0xC0 + cp / 0x40, 0x80 + cp % 0x40]
    else if cp < 0x10000 then [0xE0 + cp / 0x1000, 0x80 + (cp / 0x40) % 0x40, 0x80 + cp % 0x40]
    else [0xF0 + cp / 0x40000, 0x80 + (cp / 0x1000) % 0x40, 0x80 + (cp / 0x40) % 0x40, 0x80 + cp % 0x40]
  }

  /** "%XY" for every byte, with upper-case hexadecimal digits. */
  function PercentBytes(bytes: seq<nat>): (r: string)
    requires forall i :: 0 <= i < |bytes| ==> bytes[i] < 256
    ensures |r| == 3 * |bytes|
    ensures forall i :: 0 <= i < |r| ==> IsUnreserved(r[i]) || r[i] == '%'
  {
    if bytes == [] then []
    else ['%', HexDigit(bytes[0] / 16), HexDigit(bytes[0] % 16)] + PercentBytes(bytes[1..])
  }

  function EncodeChar(c: char): (r: string)
    ensures IsUnreserved(c) ==> r == [c]
    ensures !IsUnreserved(c) ==> 3 <= |r| && r[0] == '%'
    ensures forall i :: 0 <= i < |r| ==> IsUnreserved(r[i]) || r[i] == '%'
  {
    if IsUnreserved(c) then [c] else PercentBytes(Utf8(c))
  }

  /** encodeURIComponent. Every Dafny `char` is a Unicode scalar value, so the
      lone-surrogate case in which the JavaScript function throws cannot arise. */
  function EncodeUriComponent(s: string): (r: string)
    // only unreserved characters and '%' come out: no '&', '=', '#' or '?'
    ensures forall i :: 0 <= i < |r| ==> IsUnreserved(r[i]) || r[i] == '%'
    ensures |r| >= |s|
    // the string is left alone exactly when it holds no reserved character
    ensures r == s <==> forall i :: 0 <= i < |s| ==> IsUnreserved(s[i])
  {
    if s == [] then []
    else
      var r := EncodeChar(s[0]) + EncodeUriComponent(s[1..]);
      assert (forall i :: 0 <= i < |s| ==> IsUnreserved(s[i])) ==>
        (forall i :: 0 <= i < |s[1..]| ==> IsUnreserved(s[1..][i]));
      assert r == s ==> IsUnreserved(s[0]) && r[1..] == s[1..];
      assert (forall i :: 1 <= i < |s| ==> IsUnreserved(s[i])) <==>
        (forall i :: 0 <= i < |s[1..]| ==> IsUnreserved(s[1..][i]));
      r
  }

  // ---------------------------------------------------------------------
  // decodeURIComponent (section 19.2.6.3 of ECMA-262): the inverse
  // ---------------------------------------------------------------------

  /** The value of a hexadecimal digit of either case. */
  function HexValue(c: char): (r: Option<nat>)
    ensures r.Some? ==> r.value < 16
  {
    if '0' <= c <= '9' then Some(c as int - '0' as int)
    else if 'A' <= c <= 'F' then Some(c as int - 'A' as int + 10)
    else if 'a' <= c <= 'f' then Some(c as int - 'a' as int + 10)
    else None
  }

  lemma HexRoundTrip(d: nat)
    requires d < 16
    ensures HexValue(HexDigit(d)) == Some(d)
  {
  }

  /** The bytes of `n` consecutive "%XY" escapes at the front of `s`, or
      None when `s` does not start with that many. */
  function ParseBytes(s: string, n: nat): (r: Option<seq<nat>>)
    ensures r.Some? ==> 3 * n <= |s| && |r.value| == n
    ensures r.Some? ==> forall i :: 0 <= i < n ==> r.value[i] < 256
  {
    if n == 0 then Some([])
    else if |s| < 3 || s[0] != '%' || HexValue(s[1]).None? || HexValue(s[2]).None? then None
    else
      match ParseBytes(s[3..], n - 1)
      case None => None
      case Some(rest) => Some([16 * HexValue(s[1]).value + HexValue(s[2]).value] + rest)
  }

  /** The length of a UTF-8 sequence announced by its first byte; 0 for a
      byte that cannot start one. */
  function Utf8Length(b: nat): nat {
    if b < 0x80 then 1
    else if 0xC0 <= b < 0xE0 then 2
    else if 0xE0 <= b < 0xF0 then 3
    else if 0xF0 <= b < 0xF8 then 4
    else 0
  }

  predicate IsContinuation(b: nat) {
    0x80 <= b < 0xC0
  }

  /** The scalar value `cp`, when it is one and needed at least `min`. */
  function Scalar(cp: int, min: int): Option<char> {
    if min <= cp && (0 <= cp < 0xD800 || 0xE000 <= cp < 0x110000) then Some(cp as char) else None
  }

  /** The character a UTF-8 sequence of one to four bytes encodes; None for
      a bad continuation byte, an overlong form, a surrogate or a value past
      U+10FFFF. */
  function Utf8Value(bytes: seq<nat>): Option<char> {
    if |bytes| == 1 then
      if bytes[0] < 0x80 then Some(bytes[0] as char) else None
    else if |bytes| == 2 then
      if IsContinuation(bytes[1]) && Utf8Length(bytes[0]) == 2
      then Scalar((bytes[0] - 0xC0) * 0x40 + (bytes[1] - 0x80), 0x80) else None
    else if |bytes| == 3 then
      if IsContinuation(bytes[1]) && IsContinuation(bytes[2]) && Utf8Length(bytes[0]) == 3
      then Scalar((bytes[0] - 0xE0) * 0x1000 + (bytes[1] - 0x80) * 0x40 + (bytes[2] - 0x80), 0x800) else None
    else if |bytes| == 4 then
      if IsContinuation(bytes[1]) && IsContinuation(bytes[2]) && IsContinuation(bytes[3]) && Utf8Length(bytes[0]) == 4
      then Scalar((bytes[0] - 0xF0) * 0x40000 + (bytes[1] - 0x80) * 0x1000 + (bytes[2] - 0x80) * 0x40 + (bytes[3] - 0x80), 0x10000)
      else None
    else None
  }

  /** `c` in front of a decoded rest; a failure stays a failure. */
  function Cons(c: char, rest: Option<string>): Option<string> {
    if rest.Some? then Some([c] + rest.value) else None
  }

  /** decodeURIComponent: every "%XY…" run that encodes one character
      becomes that character, every other character stays; None where the
      JavaScript function throws a URIError. */
  function DecodeUriComponent(s: string): (r: Option<string>)
    decreases |s|
  {
    if s == [] then Some([])
    else if s[0] != '%' then Cons(s[0], DecodeUriComponent(s[1..]))
    else
      match ParseBytes(s, 1)
      case None => None
      case Some(lead) =>
        var n := Utf8Length(lead[0]);
        if n == 0 then None
        else match ParseBytes(s, n)
          case None => None
          case Some(bytes) =>
            match Utf8Value(bytes)
            case None => None
            case Some(c) => Cons(c, DecodeUriComponent(s[3 * n..]))
  }

  /** Reading one escape in front of `t`. */
  lemma ParseOne(b: nat, t: string, n: nat)
    requires b < 256
    ensures var r := ParseBytes(t, n);
      ParseBytes(['%', HexDigit(b / 16), HexDigit(b % 16)] + t, n + 1) ==
        if r.Some? then Some([b] + r.value) else None
  {
    var s := ['%', HexDigit(b / 16), HexDigit(b % 16)] + t;
    HexRoundTrip(b / 16);
    HexRoundTrip(b % 16);
    assert s[3..] == t;
    assert 16 * (b / 16) + b % 16 == b;
  }

  /** Reading back the escapes of a byte sequence gives the bytes. */
  lemma {:induction false} ParsePercentBytes(bytes: seq<nat>, t: string)
    requires forall i :: 0 <= i < |bytes| ==> bytes[i] < 256
    ensures ParseBytes(PercentBytes(bytes) + t, |bytes|) == Some(bytes)
  {
    if bytes != [] {
      var b := bytes[0];
      var rest := PercentBytes(bytes[1..]) + t;
      assert PercentBytes(bytes) + t == ['%', HexDigit(b / 16), HexDigit(b % 16)] + rest;
      ParsePercentBytes(bytes[1..], t);
      ParseOne(b, rest, |bytes| - 1);
      assert bytes == [b] + bytes[1..];
    }
  }

  /** The escapes of a byte sequence start with those of its first byte. */
  lemma LeadByte(bytes: seq<nat>, t: string)
    requires 1 <= |bytes| && forall i :: 0 <= i < |bytes| ==> bytes[i] < 256
    ensures ParseBytes(PercentBytes(bytes) + t, 1) == Some([bytes[0]])
  {
    assert PercentBytes(bytes) + t == PercentBytes([bytes[0]]) + (PercentBytes(bytes[1..]) + t);
    ParsePercentBytes([bytes[0]], PercentBytes(bytes[1..]) + t);
  }

  /** The first byte of a character's UTF-8 form announces its length. */
  lemma Utf8LeadLength(c: char)
    ensures Utf8Length(Utf8(c)[0]) == |Utf8(c)|
  {
  }

  lemma Utf8TwoBytes(cp: int)
    requires 0x80 <= cp < 0x800
    ensures (0xC0 + cp / 0x40 - 0xC0) * 0x40 + (0x80 + cp % 0x40 - 0x80) == cp
  {
  }

  lemma Utf8ThreeBytes(cp: int)
    requires 0x800 <= cp < 0x10000
    ensures (cp / 0x1000) * 0x1000 + ((cp / 0x40) % 0x40) * 0x40 + cp % 0x40 == cp
  {
    var q := cp / 0x40;
    assert cp == q * 0x40 + cp % 0x40;
    assert q == (q / 0x40) * 0x40 + q % 0x40;
    assert cp / 0x1000 == q / 0x40;
  }

  lemma Utf8FourBytes(cp: int)
    requires 0x10000 <= cp < 0x110000
    ensures (cp / 0x40000) * 0x40000 + ((cp / 0x1000) % 0x40) * 0x1000 + ((cp / 0x40) % 0x40) * 0x40 + cp % 0x40 == cp
  {
    var q := cp / 0x40;
    var p := q / 0x40;
    assert cp == q * 0x40 + cp % 0x40;
    assert q == p * 0x40 + q % 0x40;
    assert p == (p / 0x40) * 0x40 + p % 0x40;
    assert cp / 0x1000 == p;
    assert cp / 0x40000 == p / 0x40;
  }

  /** A character's UTF-8 form decodes back to it. */
  lemma Utf8RoundTrip(c: char)
    ensures Utf8Value(Utf8(c)) == Some(c)
  {
    var cp := c as int;
    if cp < 0x80 {
    } else if cp < 0x800 {
      Utf8TwoBytes(cp);
    } else if cp < 0x10000 {
      Utf8ThreeBytes(cp);
    } else {
      Utf8FourBytes(cp);
    }
  }

  /** The escapes of a reserved character decode back to it. */
  lemma DecodeEscaped(c: char, rest: string)
    requires !IsUnreserved(c)
    ensures DecodeUriComponent(PercentBytes(Utf8(c)) + rest) == Cons(c, DecodeUriComponent(rest))
  {
    var bytes := Utf8(c);
    var n := |bytes|;
    var e := PercentBytes(bytes) + rest;
    LeadByte(bytes, rest);
    Utf8LeadLength(c);
    ParsePercentBytes(bytes, rest);
    Utf8RoundTrip(c);
    assert e[0] == '%';
    assert e[3 * n..] == rest;
  }

  /** A character other than '%' is kept as it is. */
  lemma DecodePlain(c: char, rest: string)
    requires c != '%'
    ensures DecodeUriComponent([c] + rest) == Cons(c, DecodeUriComponent(rest))
  {
    assert ([c] + rest)[1..] == rest;
  }

  /** Whatever follows, one encoded character decodes back to itself. */
  lemma DecodeChar(c: char, rest: string)
    ensures DecodeUriComponent(EncodeChar(c) + rest) == Cons(c, DecodeUriComponent(rest))
  {
    if IsUnreserved(c) {
      DecodePlain(c, rest);
    } else {
      DecodeEscaped(c, rest);
    }
  }

  /** decodeURIComponent undoes encodeURIComponent. */
  lemma {:induction false} DecodeEncode(s: string)
    ensures DecodeUriComponent(EncodeUriComponent(s)) == Some(s)
    decreases |s|
  {
    if s != [] {
      DecodeEncode(s[1..]);
      DecodeChar(s[0], EncodeUriComponent(s[1..]));
      assert s == [s[0]] + s[1..];
    }
  }

  /** Different strings encode differently. */
  lemma EncodeUriComponentInjective(a: string, b: string)
    requires EncodeUriComponent(a) == EncodeUriComponent(b)
    ensures a == b
  {
    DecodeEncode(a);
    DecodeEncode(b);
  }

  // ---------------------------------------------------------------------
  // URLSearchParams over the decoded query string
  // ---------------------------------------------------------------------

  datatype Param = Param(key: string, value: string)

  /** URLSearchParams.get: the value of the first entry with this key. */
  function GetParam(q: seq<Param>, key: string): (r: Option<string>)
    ensures r.None? <==> forall i :: 0 <= i < |q| ==> q[i].key != key
    ensures r.Some? ==> exists i :: 0 <= i < |q| && q[i] == Param(key, r.value) &&
                                   forall j :: 0 <= j < i ==> q[j].key != key
  {
    if q == [] then None
    else if q[0].key == key then Some(q[0].value)
    else
      var r := GetParam(q[1..], key);
      assert r.Some? ==> exists i :: 1 <= i < |q| && q[i] == Param(key, r.value) &&
                                     forall j :: 0 <= j < i ==> q[j].key != key;
      r
  }

  /** URLSearchParams.delete: every entry with this key goes, the others stay
      in their order. */
  function DeleteParam(q: seq<Param>, key: string): (r: seq<Param>)
    ensures r == Seqs.Filter(q, (p: Param) => p.key != key)
    ensures Seqs.IsSubsequence(r, q)
    ensures forall i :: 0 <= i < |r| ==> r[i].key != key && r[i] in q
    ensures forall i :: 0 <= i < |q| && q[i].key != key ==> q[i] in r
    ensures (forall i :: 0 <= i < |q| ==> q[i].key != key) ==> r == q
  {
    var keep := (p: Param) => p.key != key;
    Seqs.FilterIsSubsequence(q, keep);
    if forall i :: 0 <= i < |q| ==> keep(q[i]) then
      Seqs.FilterKeepsAll(q, keep);
      Seqs.Filter(q, keep)
    else
      Seqs.Filter(q, keep)
  }

  // ---------------------------------------------------------------------
  // fetch
  // ---------------------------------------------------------------------

  /** What the network answers to one fetch: a transport failure, or a
      status with a JSON body that may fail to parse (None). */
  datatype Response<T> = NetworkError | Reply(status: int, body: Option<T>) {
    /** Response.ok */
    predicate Ok() { Reply? && 200 <= status <= 299 }
  }

  /** The second argument of fetch, as far as the code sets it. */
  datatype FetchInit = FetchInit(
    credentials: Option<string>,
    headers: map<string, string>,
    httpMethod: Option<string>,
    body: Option<string>)

  const NoInit := FetchInit(None, map[], None, None)

  datatype FetchCall = FetchCall(url: string, init: FetchInit)

  /** The page's window and sessionStorage, as the session code sees them. */
  class Browser {
    /** sessionStorage 'access_token' */
    var storedToken: Option<string>
    /** window.location.search, decoded into its entries */
    var query: seq<Param>
    /** window.location.origin */
    const origin: string
    /** The target of a full navigation (assignment to window.location.href). */
    var href: Option<string>
    /** Every fetch issued, in order. */
    var fetches: seq<FetchCall>

    constructor (origin: string, query: seq<Param>, storedToken: Option<string>)
      ensures this.origin == origin && this.query == query && this.storedToken == storedToken
      ensures href == None && fetches == []
    {
      this.origin := origin;
      this.query := query;
      this.storedToken := storedToken;
      href := None;
      fetches := [];
    }

    /** Issue one fetch; the oracle `response` is its outcome. */
    method Fetch<T>(call: FetchCall, response: Response<T>) returns (r: Response<T>)
      modifies this
      ensures fetches == old(fetches) + [call] && r == response
      ensures storedToken == old(storedToken) && query == old(query) && href == old(href)
    {
      fetches := fetches + [call];
      r := response;
    }

    /** sessionStorage.setItem('access_token', v) / removeItem('access_token') */
    method SetStoredToken(v: Option<string>)
      modifies this
      ensures storedToken == v
      ensures query == old(query) && href == old(href) && fetches == old(fetches)
    {
      storedToken := v;
    }

    /** window.history.replaceState with a new query: no reload, no navigation. */
    method ReplaceQuery(q: seq<Param>)
      modifies this
      ensures query == q
      ensures storedToken == old(storedToken) && href == old(href) && fetches == old(fetches)
    {
      query := q;
    }

    /** window.location.href = url */
    method Navigate(url: string)
      modifies this
      ensures href == Some(url)
      ensures storedToken == old(storedToken) && query == old(query) && fetches == old(fetches)
    {
      href := Some(url);
    }
  }
}
