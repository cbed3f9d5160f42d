/**
 * The percent-encoding of key parts (section 2.1 of RFC 3986, over the UTF-8 bytes of the text).
 */
module KeyCodec {
  import opened Wrappers

  type Byte = b: int | 0 <= b < 256

  // ---------------------------------------------------------------- UTF-8

  predicate IsScalar(n: int) {
    0 <= n < 0xD800 || 0xE000 <= n < 0x11_0000
  }

  function Utf8Char(c: char): (bs: seq<Byte>)
    ensures 1 <= |bs| <= 4
  {
    var n := c as int;
    if n < 0x80 then [n]
    else if n < 0x800 then [0xC0 + n / 64, 0x80 + n % 64]
    else if n < 0x1_0000 then [0xE0 + n / 4096, 0x80 + n / 64 % 64, 0x80 + n % 64]
    else [0xF0 + n / 262144, 0x80 + n / 4096 % 64, 0x80 + n / 64 % 64, 0x80 + n % 64]
  }

  function Utf8(s: string): seq<Byte> {
    if s == "" then [] else Utf8Char(s[0]) + Utf8(s[1..])
  }

  predicate Continuation(b: Byte) {
    0x80 <= b < 0xC0
  }

  /** The first character and how many bytes it takes; None where a decoder substitutes U+FFFD. */
  function DecodeChar(bs: seq<Byte>): (r: Option<(char, nat)>)
    requires bs != []
    ensures r.Some? ==> 1 <= r.value.1 <= |bs|
  {
    var b := bs[0];
    if b < 0x80 then Some((b as char, 1))
    else if 0xC0 <= b < 0xE0 && |bs| >= 2 && Continuation(bs[1]) then
      var n: int := (b as int - 0xC0) * 64 + (bs[1] as int - 0x80);
      if 0x80 <= n then Some((n as char, 2)) else None
    else if 0xE0 <= b < 0xF0 && |bs| >= 3 && Continuation(bs[1]) && Continuation(bs[2]) then
      var n: int := (b as int - 0xE0) * 4096 + (bs[1] as int - 0x80) * 64 + (bs[2] as int - 0x80);
      if 0x800 <= n && IsScalar(n) then Some((n as char, 3)) else None
    else if 0xF0 <= b < 0xF8 && |bs| >= 4 && Continuation(bs[1]) && Continuation(bs[2]) && Continuation(bs[3]) then
      var n: int := (b as int - 0xF0) * 262144 + (bs[1] as int - 0x80) * 4096 + (bs[2] as int - 0x80) * 64 + (bs[3] as int - 0x80);
      if 0x1_0000 <= n && IsScalar(n) then Some((n as char, 4)) else None
    else None
  }

  function Utf8Decode(bs: seq<Byte>): Option<string>
    decreases |bs|
  {
    if bs == [] then Some("")
    else
      var first := DecodeChar(bs);
      if first.None? then None
      else
        var rest := Utf8Decode(bs[first.value.1..]);
        if rest.None? then None else Some([first.value.0] + rest.value)
  }

  lemma DividesTwice(n: nat)
    ensures n / 64 / 64 == n / 4096
  {
    var q, r := n / 64, n % 64;
    assert n == q / 64 * 4096 + (q % 64 * 64 + r);
    assert 0 <= q % 64 * 64 + r < 4096;
  }

  /** The digits of a number to the base 64. */
  lemma Base64(n: nat)
    ensures n == n / 4096 * 4096 + n / 64 % 64 * 64 + n % 64
    ensures n / 4096 == n / 262144 * 64 + n / 4096 % 64
  {
    DividesTwice(n);
    DividesTwice(n / 64);
    assert n / 64 == n / 64 / 64 * 64 + n / 64 % 64;
    assert n / 262144 == n / 64 / 4096;
  }

  lemma DecodesShort(c: char, rest: seq<Byte>)
    requires c as int < 0x1_0000
    ensures DecodeChar(Utf8Char(c) + rest) == Some((c, |Utf8Char(c)|))
  {
    assert IsScalar(c as int);
    Base64(c as int);
  }

  lemma DecodesLong(c: char, rest: seq<Byte>)
    requires c as int >= 0x1_0000
    ensures DecodeChar(Utf8Char(c) + rest) == Some((c, |Utf8Char(c)|))
  {
    assert IsScalar(c as int);
    Base64(c as int);
  }

  lemma DecodesChar(c: char, rest: seq<Byte>)
    ensures DecodeChar(Utf8Char(c) + rest) == Some((c, |Utf8Char(c)|))
  {
    if c as int < 0x1_0000 {
      DecodesShort(c, rest);
    } else {
      DecodesLong(c, rest);
    }
  }

  lemma {:induction false} Utf8RoundTrip(s: string)
    ensures Utf8Decode(Utf8(s)) == Some(s)
  {
    if s != "" {
      var first, rest := Utf8Char(s[0]), Utf8(s[1..]);
      DecodesChar(s[0], rest);
      assert (first + rest)[|first|..] == rest;
      Utf8RoundTrip(s[1..]);
      assert s == [s[0]] + s[1..];
    }
  }

  // ---------------------------------------------------------------- percent-encoding

  /** Letters, digits and "_.-~"; safe='' adds none. */
  predicate Unreserved(b: Byte) {
    || 0x41 <= b <= 0x5A || 0x61 <= b <= 0x7A || 0x30 <= b <= 0x39
    || b == 0x5F || b == 0x2E || b == 0x2D || b == 0x7E
  }

  function HexDigit(d: int): char
    requires 0 <= d < 16
  {
    if d < 10 then (0x30 + d) as char else (0x41 + d - 10) as char
  }

  /** The value of a hexadecimal digit in either case. */
  function HexValue(c: char): Option<int> {
    if '0' <= c <= '9' then Some(c as int - 0x30)
    else if 'A' <= c <= 'F' then Some(c as int - 0x41 + 10)
    else if 'a' <= c <= 'f' then Some(c as int - 0x61 + 10)
    else None
  }

  function QuoteByte(b: Byte): string {
    if Unreserved(b) then [b as char] else ['%', HexDigit(b / 16), HexDigit(b % 16)]
  }

  function QuoteBytes(bs: seq<Byte>): string {
    if bs == [] then "" else QuoteByte(bs[0]) + QuoteBytes(bs[1..])
  }

  /** encode_key_part */
  function Encode(s: string): string {
    QuoteBytes(Utf8(s))
  }

  predicate IsEscape(s: string) {
    |s| >= 3 && s[0] == '%' && HexValue(s[1]).Some? && HexValue(s[2]).Some?
  }

  function UnquoteToBytes(s: string): seq<Byte>
    decreases |s|
  {
    if s == "" then []
    else if IsEscape(s) then [HexValue(s[1]).value * 16 + HexValue(s[2]).value] + UnquoteToBytes(s[3..])
    else Utf8Char(s[0]) + UnquoteToBytes(s[1..])
  }

  /** decode_key_part */
  function Decode(s: string): Option<string> {
    Utf8Decode(UnquoteToBytes(s))
  }

  lemma UnquotesByte(b: Byte, rest: string)
    ensures UnquoteToBytes(QuoteByte(b) + rest) == [b] + UnquoteToBytes(rest)
  {
    var s := QuoteByte(b) + rest;
    if Unreserved(b) {
      assert s[0] == b as char && s[1..] == rest;
      assert !IsEscape(s);
    } else {
      assert s[1] == HexDigit(b / 16) && s[2] == HexDigit(b % 16) && s[3..] == rest;
      assert HexValue(s[1]) == Some(b / 16) && HexValue(s[2]) == Some(b % 16);
    }
  }

  lemma {:induction false} UnquotesBytes(bs: seq<Byte>)
    ensures UnquoteToBytes(QuoteBytes(bs)) == bs
  {
    if bs != [] {
      UnquotesByte(bs[0], QuoteBytes(bs[1..]));
      UnquotesBytes(bs[1..]);
      assert bs == [bs[0]] + bs[1..];
    }
  }

  /** Decoding an encoded part gives the part back, for every text. */
  lemma RoundTrip(s: string)
    ensures Decode(Encode(s)) == Some(s)
  {
    UnquotesBytes(Utf8(s));
    Utf8RoundTrip(s);
  }

  lemma EncodeInjective(s: string, t: string)
    requires Encode(s) == Encode(t)
    ensures s == t
  {
    RoundTrip(s);
    RoundTrip(t);
  }

  predicate KeyChar(c: char) {
    c == '%' || (c as int < 256 && Unreserved(c as int))
  }

  /** Only unreserved characters and percent signs are emitted. */
  lemma {:induction false} EncodedChars(bs: seq<Byte>, c: char)
    requires c in QuoteBytes(bs)
    ensures KeyChar(c)
  {
    if c in QuoteByte(bs[0]) {
      assert forall d :: 0 <= d < 16 ==> KeyChar(HexDigit(d));
    } else {
      EncodedChars(bs[1..], c);
    }
  }

  /** In particular never a slash. */
  lemma NoSlash(s: string)
    ensures '/' !in Encode(s)
  {
    if '/' in Encode(s) {
      EncodedChars(Utf8(s), '/');
    }
  }
}

/** The keys of both etcd stores, and what their prefix queries return. */
module KeySpace {
  import opened KeyCodec

  /** Key parts after the configured prefix, each behind a slash. */
  function Join(parts: seq<string>): string {
    if parts == [] then "" else "/" + parts[0] + Join(parts[1..])
  }

  ghost predicate SlashFree(parts: seq<string>) {
    forall k :: 0 <= k < |parts| ==> '/' !in parts[k]
  }

  datatype StagedKey =
    | InstanceKey(notification: string, instance: string)
    | StartLeaseKey(host: string, instance: string)
    | RuntimeConfigKey(name: string)

  function StagedParts(k: StagedKey): seq<string> {
    match k
    case InstanceKey(n, i) => ["notifications", Encode(n), "instances", Encode(i)]
    case StartLeaseKey(h, i) => ["start-leases", Encode(h), Encode(i)]
    case RuntimeConfigKey(name) => ["config", Encode(name)]
  }

  function StagedKeyString(prefix: string, k: StagedKey): string {
    prefix + Join(StagedParts(k))
  }

  function NotificationPrefix(prefix: string, notification: string): string {
    prefix + Join(["notifications", Encode(notification), "instances"]) + "/"
  }

  function StartLeasePrefix(prefix: string, host: string): string {
    prefix + Join(["start-leases", Encode(host)]) + "/"
  }

  datatype FencingKey =
    | FailureKey(segment: string, event: string, host: string)
    | HostStateKey(host: string)
    | SegmentLockKey(segment: string)
    | HostLockKey(host: string)

  function FencingParts(k: FencingKey): seq<string> {
    match k
    case FailureKey(s, e, h) => ["failures", Encode(s), Encode(e), Encode(h)]
    case HostStateKey(h) => ["hosts", Encode(h)]
    case SegmentLockKey(s) => ["locks", "segments", Encode(s)]
    case HostLockKey(h) => ["locks", "hosts", Encode(h)]
  }

  function FencingKeyString(prefix: string, k: FencingKey): string {
    prefix + Join(FencingParts(k))
  }

  function FailuresPrefix(prefix: string, segment: string): string {
    prefix + Join(["failures", Encode(segment)]) + "/"
  }

  // ---------------------------------------------------------------- joined parts

  lemma FirstSlash(a: string, x: string)
    requires '/' !in a && (x == "" || x[0] == '/')
    ensures |a| < |a + x| ==> (a + x)[|a|] == '/'
    ensures forall k :: 0 <= k < |a| ==> (a + x)[k] != '/'
  {
  }

  /** Up to the next slash, equal strings have equal parts. */
  lemma SplitAtSlash(a: string, x: string, b: string, y: string)
    requires '/' !in a && '/' !in b
    requires x == "" || x[0] == '/'
    requires y == "" || y[0] == '/'
    requires a + x == b + y
    ensures a == b && x == y
  {
    FirstSlash(a, x);
    FirstSlash(b, y);
    assert a == (a + x)[..|a|] && b == (b + y)[..|b|];
    assert x == (a + x)[|a|..] && y == (b + y)[|b|..];
  }

  /** Joined slash-free parts can be taken apart again. */
  lemma {:induction false} JoinInjective(a: seq<string>, b: seq<string>)
    requires SlashFree(a) && SlashFree(b) && Join(a) == Join(b)
    ensures a == b
  {
    if a != [] && b != [] {
      assert a[0] + Join(a[1..]) == Join(a)[1..] && b[0] + Join(b[1..]) == Join(b)[1..];
      SplitAtSlash(a[0], Join(a[1..]), b[0], Join(b[1..]));
      JoinInjective(a[1..], b[1..]);
      assert a == [a[0]] + a[1..] && b == [b[0]] + b[1..];
    }
  }

  lemma {:induction false} JoinAppend(a: seq<string>, b: seq<string>)
    ensures Join(a + b) == Join(a) + Join(b)
  {
    if a == [] {
      assert a + b == b;
    } else {
      assert (a + b)[1..] == a[1..] + b;
      JoinAppend(a[1..], b);
    }
  }

  /** A joined prefix with a closing slash is a prefix of exactly the keys below it. */
  lemma {:induction false} PrefixOfJoin(a: seq<string>, b: seq<string>)
    requires SlashFree(a) && SlashFree(b)
    ensures Join(a) + "/" <= Join(b) <==> |a| < |b| && a == b[..|a|]
  {
    if |a| < |b| && a == b[..|a|] {
      JoinAppend(a, b[|a|..]);
      assert b == a + b[|a|..];
    }
    if Join(a) + "/" <= Join(b) {
      PrefixBelow(a, b);
    }
  }

  lemma {:induction false} PrefixBelow(a: seq<string>, b: seq<string>)
    requires SlashFree(a) && SlashFree(b) && Join(a) + "/" <= Join(b)
    ensures |a| < |b| && a == b[..|a|]
  {
    if a != [] {
      var rest := Join(b)[|Join(a)|..];
      assert Join(b) == Join(a) + rest;
      assert rest[0] == '/';
      assert a[0] + (Join(a[1..]) + rest) == Join(b)[1..] == b[0] + Join(b[1..]);
      assert Join(a[1..]) + rest != "" && (Join(a[1..]) + rest)[0] == '/';
      SplitAtSlash(a[0], Join(a[1..]) + rest, b[0], Join(b[1..]));
      assert Join(a[1..]) + "/" <= Join(b[1..]);
      PrefixBelow(a[1..], b[1..]);
      assert a == [a[0]] + a[1..] && b[..|a|] == [b[0]] + b[1..][..|a| - 1];
    }
  }

  // ---------------------------------------------------------------- the two stores

  lemma StagedSlashFree(k: StagedKey)
    ensures SlashFree(StagedParts(k))
  {
    match k {
      case InstanceKey(n, i) => NoSlash(n); NoSlash(i);
      case StartLeaseKey(h, i) => NoSlash(h); NoSlash(i);
      case RuntimeConfigKey(name) => NoSlash(name);
    }
  }

  lemma FencingSlashFree(k: FencingKey)
    ensures SlashFree(FencingParts(k))
  {
    match k {
      case FailureKey(s, e, h) => NoSlash(s); NoSlash(e); NoSlash(h);
      case HostStateKey(h) => NoSlash(h);
      case SegmentLockKey(s) => NoSlash(s);
      case HostLockKey(h) => NoSlash(h);
    }
  }

  lemma SameRest(prefix: string, x: string, y: string)
    ensures prefix + x == prefix + y <==> x == y
    ensures prefix + x <= prefix + y <==> x <= y
  {
    assert (prefix + x)[|prefix|..] == x && (prefix + y)[|prefix|..] == y;
    if x <= y {
      assert prefix + y == prefix + x + y[|x|..];
    }
    if prefix + x <= prefix + y {
      assert x == (prefix + y)[..|prefix + x|][|prefix|..] == y[..|x|];
    }
  }

  /** Different records of the staged store never share a key, of whatever kind they are. */
  lemma StagedKeysInjective(prefix: string, j: StagedKey, k: StagedKey)
    requires StagedKeyString(prefix, j) == StagedKeyString(prefix, k)
    ensures j == k
  {
    SameRest(prefix, Join(StagedParts(j)), Join(StagedParts(k)));
    StagedSlashFree(j);
    StagedSlashFree(k);
    JoinInjective(StagedParts(j), StagedParts(k));
    var p, q := StagedParts(j), StagedParts(k);
    assert p[0] == q[0] && p[1] == q[1] && |p| == |q|;
    match j {
      case InstanceKey(n, i) => EncodeInjective(n, k.notification); EncodeInjective(i, k.instance);
      case StartLeaseKey(h, i) => EncodeInjective(h, k.host); EncodeInjective(i, k.instance);
      case RuntimeConfigKey(name) => EncodeInjective(name, k.name);
    }
  }

  /** The instances of a notification are exactly what its prefix query returns. */
  lemma NotificationQueryExact(prefix: string, notification: string, k: StagedKey)
    ensures NotificationPrefix(prefix, notification) <= StagedKeyString(prefix, k)
            <==> k.InstanceKey? && k.notification == notification
  {
    var a, b := ["notifications", Encode(notification), "instances"], StagedParts(k);
    NoSlash(notification);
    StagedSlashFree(k);
    PrefixOfJoin(a, b);
    SameRest(prefix, Join(a) + "/", Join(b));
    assert NotificationPrefix(prefix, notification) == prefix + (Join(a) + "/");
    if |a| < |b| && a == b[..|a|] {
      assert b[0] == a[0] && b[1] == a[1];
      EncodeInjective(notification, k.notification);
    }
  }

  /** The start leases of a host are exactly what its prefix query returns. */
  lemma StartLeaseQueryExact(prefix: string, host: string, k: StagedKey)
    ensures StartLeasePrefix(prefix, host) <= StagedKeyString(prefix, k) <==> k.StartLeaseKey? && k.host == host
  {
    var a, b := ["start-leases", Encode(host)], StagedParts(k);
    NoSlash(host);
    StagedSlashFree(k);
    PrefixOfJoin(a, b);
    SameRest(prefix, Join(a) + "/", Join(b));
    assert StartLeasePrefix(prefix, host) == prefix + (Join(a) + "/");
    if |a| < |b| && a == b[..|a|] {
      assert b[0] == a[0] && b[1] == a[1];
      EncodeInjective(host, k.host);
    }
  }

  /** Different records and locks of the fencing store never share a key. */
  lemma FencingKeysInjective(prefix: string, j: FencingKey, k: FencingKey)
    requires FencingKeyString(prefix, j) == FencingKeyString(prefix, k)
    ensures j == k
  {
    SameRest(prefix, Join(FencingParts(j)), Join(FencingParts(k)));
    FencingSlashFree(j);
    FencingSlashFree(k);
    JoinInjective(FencingParts(j), FencingParts(k));
    var p, q := FencingParts(j), FencingParts(k);
    assert p[0] == q[0] && p[1] == q[1] && |p| == |q|;
    match j {
      case FailureKey(s, e, h) =>
        assert p[2] == q[2] && p[3] == q[3];
        EncodeInjective(s, k.segment);
        EncodeInjective(e, k.event);
        EncodeInjective(h, k.host);
      case HostStateKey(h) => EncodeInjective(h, k.host);
      case SegmentLockKey(s) =>
        assert p[2] == q[2];
        EncodeInjective(s, k.segment);
      case HostLockKey(h) =>
        assert p[2] == q[2];
        EncodeInjective(h, k.host);
    }
  }

  /** The failures of a segment are exactly what its prefix query returns. */
  lemma FailuresQueryExact(prefix: string, segment: string, k: FencingKey)
    ensures FailuresPrefix(prefix, segment) <= FencingKeyString(prefix, k) <==> k.FailureKey? && k.segment == segment
  {
    var a, b := ["failures", Encode(segment)], FencingParts(k);
    NoSlash(segment);
    FencingSlashFree(k);
    PrefixOfJoin(a, b);
    SameRest(prefix, Join(a) + "/", Join(b));
    assert FailuresPrefix(prefix, segment) == prefix + (Join(a) + "/");
    if |a| < |b| && a == b[..|a|] {
      assert b[0] == a[0] && b[1] == a[1];
      EncodeInjective(segment, k.segment);
    }
  }
}
