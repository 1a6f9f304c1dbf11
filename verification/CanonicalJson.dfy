/**
 The canonical payload behind an idempotency key: JSON.stringify of an object of five
 fields in a fixed order. Text is UTF-16 code units, as a JavaScript string is.

 The reader below decodes string escapes as section 7 of RFC 8259 has them, and gives
 back the payload from its canonical text, so equal texts mean equal payloads.
 */
module CanonicalJson {
  import opened Options

  type Unit = u: int | 0 <= u < 0x1_0000

  type Text = seq<Unit>

  const QUOTE: Unit := 0x22
  const BACKSLASH: Unit := 0x5C

  // ---------------------------------------------------------------- JSON.stringify of a string

  predicate IsHigh(u: Unit) {
    0xD800 <= u < 0xDC00
  }

  predicate IsLow(u: Unit) {
    0xDC00 <= u < 0xE000
  }

  /** The letter of a two-character escape, if the unit has one. */
  function ShortEscape(u: Unit): Option<Unit> {
    if u == 0x08 then Some(0x62)           // \b
    else if u == 0x09 then Some(0x74)      // \t
    else if u == 0x0A then Some(0x6E)      // \n
    else if u == 0x0C then Some(0x66)      // \f
    else if u == 0x0D then Some(0x72)      // \r
    else if u == QUOTE || u == BACKSLASH then Some(u)
    else None
  }

  /** Hexadecimal digits are lower case. */
  function Hex(d: int): Unit
    requires 0 <= d < 16
  {
    if d < 10 then 0x30 + d else 0x61 + (d - 10)
  }

  /** Control characters and lone surrogates. */
  function UnicodeEscape(u: Unit): Text {
    [BACKSLASH, 0x75, Hex(u / 16 / 16 / 16), Hex(u / 16 / 16 % 16), Hex(u / 16 % 16), Hex(u % 16)]
  }

  predicate NeedsEscape(u: Unit) {
    u < 0x20 || IsHigh(u) || IsLow(u)
  }

  predicate PairAhead(s: Text) {
    |s| >= 2 && IsHigh(s[0]) && IsLow(s[1])
  }

  /** What one unit, not the start of a surrogate pair, becomes. */
  function EscapeUnit(u: Unit): Text {
    if ShortEscape(u).Some? then [BACKSLASH, ShortEscape(u).value]
    else if NeedsEscape(u) then UnicodeEscape(u)
    else [u]
  }

  function Escape(s: Text): Text {
    if s == [] then []
    else if PairAhead(s) then [s[0], s[1]] + Escape(s[2..])
    else EscapeUnit(s[0]) + Escape(s[1..])
  }

  function Quoted(s: Text): Text {
    [QUOTE] + Escape(s) + [QUOTE]
  }

  // ---------------------------------------------------------------- the shortest text

  predicate HighAt(s: Text, i: int) {
    0 <= i < |s| && 0xD800 <= s[i] <= 0xDBFF
  }

  predicate LowAt(s: Text, i: int) {
    0 <= i < |s| && 0xDC00 <= s[i] <= 0xDFFF
  }

  /** Unit i is half of a surrogate pair. */
  predicate Paired(s: Text, i: nat) {
    (HighAt(s, i) && LowAt(s, i + 1)) || (LowAt(s, i) && HighAt(s, i - 1))
  }

  /** Units that unit i takes in the text: JSON.stringify escapes what it must, and with two units where it can. */
  function Cost(s: Text, i: nat): nat
    requires i < |s|
  {
    if Paired(s, i) then 1
    else if s[i] in {0x08, 0x09, 0x0A, 0x0C, 0x0D, 0x22, 0x5C} then 2
    else if s[i] < 0x20 || 0xD800 <= s[i] <= 0xDFFF then 6
    else 1
  }

  function CostFrom(s: Text, i: nat): nat
    requires i <= |s|
    decreases |s| - i
  {
    if i == |s| then 0 else Cost(s, i) + CostFrom(s, i + 1)
  }

  lemma UnitCost(s: Text, i: nat)
    requires i < |s| && !Paired(s, i)
    ensures |EscapeUnit(s[i])| == Cost(s, i)
  {
  }

  lemma {:induction false} EscapeCosts(s: Text, i: nat)
    requires i <= |s| && !(LowAt(s, i) && HighAt(s, i - 1))
    ensures |Escape(s[i..])| == CostFrom(s, i)
    decreases |s| - i
  {
    if i < |s| {
      if HighAt(s, i) && LowAt(s, i + 1) {
        assert s[i..][2..] == s[i + 2..];
        EscapeCosts(s, i + 2);
      } else {
        UnitCost(s, i);
        assert s[i..][1..] == s[i + 1..];
        EscapeCosts(s, i + 1);
      }
    }
  }

  /** A string takes two quotes and each unit's cost; where four digits stand for a unit they are lower case. */
  lemma QuotedCosts(s: Text)
    ensures |Quoted(s)| == 2 + CostFrom(s, 0)
  {
    EscapeCosts(s, 0);
    assert s[0..] == s;
    hide Escape;
  }

  lemma DigitsAreLowerCase(u: Unit, k: nat)
    requires 2 <= k < 6
    ensures 0x30 <= UnicodeEscape(u)[k] <= 0x39 || 0x61 <= UnicodeEscape(u)[k] <= 0x66
  {
  }

  // ---------------------------------------------------------------- reading a string

  function HexValue(u: Unit): (v: Option<int>)
    ensures v.Some? ==> 0 <= v.value < 16
  {
    if 0x30 <= u <= 0x39 then Some(u - 0x30)
    else if 0x61 <= u <= 0x66 then Some(u - 0x61 + 10)
    else if 0x41 <= u <= 0x46 then Some(u - 0x41 + 10)
    else None
  }

  /** The unit of four hexadecimal digits. */
  function FourHex(a: Unit, b: Unit, c: Unit, d: Unit): Option<Unit> {
    var (w, x) := (HexValue(a), HexValue(b));
    var (y, z) := (HexValue(c), HexValue(d));
    if w.None? || x.None? || y.None? || z.None? then None else Some(Number(w.value, x.value, y.value, z.value))
  }

  function Number(w: int, x: int, y: int, z: int): Unit
    requires 0 <= w < 16 && 0 <= x < 16 && 0 <= y < 16 && 0 <= z < 16
  {
    ((w * 16 + x) * 16 + y) * 16 + z
  }

  /** The unit a two-character escape stands for; RFC 8259 also lets a solidus be escaped. */
  function ShortMeaning(letter: Unit): Option<Unit> {
    if letter == QUOTE || letter == BACKSLASH || letter == 0x2F then Some(letter)
    else if letter == 0x62 then Some(0x08)
    else if letter == 0x66 then Some(0x0C)
    else if letter == 0x6E then Some(0x0A)
    else if letter == 0x72 then Some(0x0D)
    else if letter == 0x74 then Some(0x09)
    else None
  }

  datatype Read = Read(value: Text, rest: Text)

  /** A value's first unit, put before what was read after it. */
  function Put(u: Option<Unit>, r: Option<Read>): Option<Read> {
    if u.None? || r.None? then None else Some(Read([u.value] + r.value.value, r.value.rest))
  }

  /** The string up to its closing quote, and what follows it. */
  function ReadString(t: Text): Option<Read>
    decreases |t|
  {
    if t == [] then None
    else if t[0] == QUOTE then Some(Read([], t[1..]))
    else if t[0] < 0x20 then None
    else if t[0] != BACKSLASH then Put(Some(t[0]), ReadString(t[1..]))
    else if |t| < 2 then None
    else if t[1] != 0x75 then Put(ShortMeaning(t[1]), ReadString(t[2..]))
    else if |t| < 6 then None
    else Put(FourHex(t[2], t[3], t[4], t[5]), ReadString(t[6..]))
  }

  lemma HexDigit(d: int)
    requires 0 <= d < 16
    ensures HexValue(Hex(d)) == Some(d)
  {
  }

  lemma Digits(u: Unit)
    ensures 0 <= u / 16 / 16 / 16 < 16 && Number(u / 16 / 16 / 16, u / 16 / 16 % 16, u / 16 % 16, u % 16) == u
  {
    var q := u / 16;
    var r := q / 16;
    assert u == q * 16 + u % 16 && q == r * 16 + q % 16 && r == r / 16 * 16 + r % 16;
  }

  lemma FourHexDigits(u: Unit)
    ensures var t := UnicodeEscape(u); FourHex(t[2], t[3], t[4], t[5]) == Some(u)
  {
    Digits(u);
    HexDigit(u / 16 / 16 / 16);
    HexDigit(u / 16 / 16 % 16);
    HexDigit(u / 16 % 16);
    HexDigit(u % 16);
  }

  lemma ReadUnicodeEscape(u: Unit, rest: Text)
    ensures ReadString(UnicodeEscape(u) + rest) == Put(Some(u), ReadString(rest))
  {
    var e := UnicodeEscape(u);
    var t := e + rest;
    FourHexDigits(u);
    assert t[0] == e[0] && t[1] == e[1] && t[2] == e[2] && t[3] == e[3] && t[4] == e[4] && t[5] == e[5];
    assert t[6..] == rest;
  }

  lemma ShortIsMeant(u: Unit)
    ensures ShortEscape(u).Some? ==> ShortMeaning(ShortEscape(u).value) == Some(u) && ShortEscape(u).value != 0x75
  {
  }

  lemma ReadShortEscape(u: Unit, rest: Text)
    requires ShortEscape(u).Some?
    ensures ReadString([BACKSLASH, ShortEscape(u).value] + rest) == Put(Some(u), ReadString(rest))
  {
    var t := [BACKSLASH, ShortEscape(u).value] + rest;
    ShortIsMeant(u);
    assert t[0] == BACKSLASH && t[1] == ShortEscape(u).value && t[2..] == rest;
  }

  /** One escaped unit is read back as the unit. */
  lemma ReadUnit(u: Unit, rest: Text)
    ensures ReadString(EscapeUnit(u) + rest) == Put(Some(u), ReadString(rest))
  {
    if ShortEscape(u).Some? {
      ReadShortEscape(u, rest);
    } else if NeedsEscape(u) {
      ReadUnicodeEscape(u, rest);
    } else {
      ReadPlain(u, rest);
    }
  }

  lemma ReadPlain(u: Unit, rest: Text)
    requires u >= 0x20 && u != QUOTE && u != BACKSLASH
    ensures ReadString([u] + rest) == Put(Some(u), ReadString(rest))
  {
    assert ([u] + rest)[1..] == rest;
  }

  lemma ReadPair(a: Unit, b: Unit, after: Text)
    requires IsHigh(a) && IsLow(b)
    ensures ReadString([a] + ([b] + after)) == Put(Some(a), Put(Some(b), ReadString(after)))
  {
    ReadPlain(b, after);
    ReadPlain(a, [b] + after);
  }

  lemma Associative<T>(a: seq<T>, b: seq<T>, c: seq<T>)
    ensures (a + b) + c == a + (b + c)
  {
  }

  /** Reading what begins with an escaped pair ... */
  lemma ReadEscapedPair(s: Text, escaped: Text, tail: Text)
    requires PairAhead(s) && escaped == Escape(s[2..])
    ensures ReadString(Escape(s) + tail) == Put(Some(s[0]), Put(Some(s[1]), ReadString(escaped + tail)))
  {
    Associative([s[0], s[1]], escaped, tail);
    Associative([s[0]], [s[1]], escaped + tail);
    assert [s[0], s[1]] == [s[0]] + [s[1]];
    ReadPair(s[0], s[1], escaped + tail);
  }

  /** ... or with an escaped unit. */
  lemma ReadEscapedUnit(s: Text, escaped: Text, tail: Text)
    requires s != [] && !PairAhead(s) && escaped == Escape(s[1..])
    ensures ReadString(Escape(s) + tail) == Put(Some(s[0]), ReadString(escaped + tail))
  {
    Associative(EscapeUnit(s[0]), escaped, tail);
    ReadUnit(s[0], escaped + tail);
  }

  lemma ReadNothing(rest: Text)
    ensures ReadString(Escape([]) + ([QUOTE] + rest)) == Some(Read([], rest))
  {
    var tail := [QUOTE] + rest;
    assert Escape([]) + tail == tail;
    assert tail[1..] == rest;
  }

  lemma PutPair(s: Text, rest: Text)
    requires |s| >= 2
    ensures Put(Some(s[0]), Put(Some(s[1]), Some(Read(s[2..], rest)))) == Some(Read(s, rest))
  {
    assert s == [s[0]] + ([s[1]] + s[2..]);
  }

  lemma PutUnit(s: Text, rest: Text)
    requires s != []
    ensures Put(Some(s[0]), Some(Read(s[1..], rest))) == Some(Read(s, rest))
  {
    assert s == [s[0]] + s[1..];
  }

  /** Whatever the string, reading its escaped form gives it back and stops at the closing quote. */
  lemma {:induction false} ReadEscaped(s: Text, rest: Text)
    ensures ReadString(Escape(s) + ([QUOTE] + rest)) == Some(Read(s, rest))
    decreases |s|
  {
    if s == [] {
      ReadNothing(rest);
    } else {
      if PairAhead(s) {
        ReadEscaped(s[2..], rest);
        ReadEscapedPair(s, Escape(s[2..]), [QUOTE] + rest);
        PutPair(s, rest);
      } else {
        ReadEscaped(s[1..], rest);
        ReadEscapedUnit(s, Escape(s[1..]), [QUOTE] + rest);
        PutUnit(s, rest);
      }
    }
  }

  // ---------------------------------------------------------------- the payload

  /** The five fields after String(...); a null or undefined user is None. */
  datatype Payload = Payload(merchant: Text, user: Option<Text>, campaign: Text, action: Text, amount: Text)

  function Ascii(s: string): (t: Text)
    ensures |t| == |s| && forall i :: 0 <= i < |t| ==> t[i] < 0x80
  {
    seq(|s|, i requires 0 <= i < |s| => s[i] as int % 128)
  }

  const NULL := Ascii("null")
  const MERCHANT := Ascii("{\"merchantId\":")
  const USER := Ascii(",\"userId\":")
  const CAMPAIGN := Ascii(",\"campaignId\":")
  const ACTION := Ascii(",\"actionId\":")
  const AMOUNT := Ascii(",\"amount\":")
  const END := Ascii("}")

  function UserText(user: Option<Text>): Text {
    if user.Some? then Quoted(user.value) else NULL
  }

  /** JSON.stringify of the payload. */
  function Canonical(p: Payload): Text {
    MERCHANT + (Quoted(p.merchant) + (USER + (UserText(p.user) + (CAMPAIGN + (Quoted(p.campaign) +
    (ACTION + (Quoted(p.action) + (AMOUNT + (Quoted(p.amount) + END)))))))))
  }

  /** What follows a literal the text starts with. */
  function Expect(literal: Text, t: Option<Text>): Option<Text> {
    if t.Some? && literal <= t.value then Some(t.value[|literal|..]) else None
  }

  function ReadQuoted(t: Option<Text>): Option<Read> {
    if t.Some? && t.value != [] && t.value[0] == QUOTE then ReadString(t.value[1..]) else None
  }

  /** A member: its literal key, then a string. */
  function ReadField(literal: Text, t: Option<Text>): Option<Read> {
    ReadQuoted(Expect(literal, t))
  }

  function Rest(r: Option<Read>): Option<Text> {
    if r.Some? then Some(r.value.rest) else None
  }

  datatype UserRead = UserRead(user: Option<Text>, rest: Text)

  /** A string or null. */
  function ReadUser(t: Option<Text>): Option<UserRead> {
    var at := Expect(USER, t);
    if at.Some? && NULL <= at.value then Some(UserRead(None, at.value[|NULL|..]))
    else
      var r := ReadQuoted(at);
      if r.Some? then Some(UserRead(Some(r.value.value), r.value.rest)) else None
  }

  function ReadPayload(t: Text): Option<Payload> {
    var merchant := ReadField(MERCHANT, Some(t));
    var user := ReadUser(Rest(merchant));
    var campaign := ReadField(CAMPAIGN, if user.Some? then Some(user.value.rest) else None);
    var action := ReadField(ACTION, Rest(campaign));
    var amount := ReadField(AMOUNT, Rest(action));
    if amount.Some? && amount.value.rest == END then
      Some(Payload(merchant.value.value, user.value.user, campaign.value.value, action.value.value, amount.value.value))
    else None
  }

  lemma ReadFieldBack(literal: Text, s: Text, rest: Text)
    ensures ReadField(literal, Some(literal + (Quoted(s) + rest))) == Some(Read(s, rest))
  {
    var t := literal + (Quoted(s) + rest);
    assert t[|literal|..] == Quoted(s) + rest;
    assert (Quoted(s) + rest)[1..] == Escape(s) + ([QUOTE] + rest);
    ReadEscaped(s, rest);
  }

  lemma ReadUserBack(user: Option<Text>, rest: Text)
    ensures ReadUser(Some(USER + (UserText(user) + rest))) == Some(UserRead(user, rest))
  {
    var t := USER + (UserText(user) + rest);
    var at := UserText(user) + rest;
    assert t[|USER|..] == at;
    if user.Some? {
      ReadFieldBack(USER, user.value, rest);
      assert at[0] == QUOTE && NULL[0] == 0x6E;
      assert !(NULL <= at);
    } else {
      assert at[|NULL|..] == rest;
    }
  }

  /** The canonical text can be read back, for any five fields. */
  lemma CanonicalRoundTrip(p: Payload)
    ensures ReadPayload(Canonical(p)) == Some(p)
  {
    var amount := AMOUNT + (Quoted(p.amount) + END);
    var action := ACTION + (Quoted(p.action) + amount);
    var campaign := CAMPAIGN + (Quoted(p.campaign) + action);
    var user := USER + (UserText(p.user) + campaign);
    ReadFieldBack(MERCHANT, p.merchant, user);
    ReadUserBack(p.user, campaign);
    ReadFieldBack(CAMPAIGN, p.campaign, action);
    ReadFieldBack(ACTION, p.action, amount);
    ReadFieldBack(AMOUNT, p.amount, END);
  }

  /** Equal canonical texts mean that all five fields agree. */
  lemma CanonicalIsInjective(p: Payload, q: Payload)
    ensures Canonical(p) == Canonical(q) <==> p == q
  {
    CanonicalRoundTrip(p);
    CanonicalRoundTrip(q);
  }

  /** In particular a missing user is not the user called "null". */
  lemma NullUserIsNotTheStringNull(p: Payload)
    ensures Canonical(p.(user := None)) != Canonical(p.(user := Some(Ascii("null"))))
  {
    CanonicalIsInjective(p.(user := None), p.(user := Some(Ascii("null"))));
  }

  // ---------------------------------------------------------------- the text can be encoded

  /** Every surrogate is half of a pair: the text has a UTF-8 form of its own. */
  predicate WellFormed(t: Text)
    decreases |t|
  {
    if t == [] then true
    else if PairAhead(t) then WellFormed(t[2..])
    else !IsHigh(t[0]) && !IsLow(t[0]) && WellFormed(t[1..])
  }

  lemma {:induction false} WellFormedParts(a: Text, b: Text)
    requires WellFormed(a) && WellFormed(b)
    ensures WellFormed(a + b)
    decreases |a|
  {
    if a == [] {
      assert a + b == b;
    } else if PairAhead(a) {
      WellFormedParts(a[2..], b);
      assert (a + b)[2..] == a[2..] + b;
    } else {
      WellFormedParts(a[1..], b);
      assert (a + b)[1..] == a[1..] + b;
    }
  }

  predicate NoSurrogates(t: Text) {
    forall i :: 0 <= i < |t| ==> !IsHigh(t[i]) && !IsLow(t[i])
  }

  lemma {:induction false} NoSurrogatesIsWellFormed(t: Text)
    requires NoSurrogates(t)
    ensures WellFormed(t)
  {
    if t != [] {
      NoSurrogatesIsWellFormed(t[1..]);
    }
  }

  /** Escaping leaves only paired surrogates, whatever the string had. */
  lemma {:induction false} EscapeIsWellFormed(s: Text)
    ensures WellFormed(Escape(s))
    decreases |s|
  {
    if s == [] {
    } else if PairAhead(s) {
      EscapeIsWellFormed(s[2..]);
      assert WellFormed([s[0], s[1]]);
      WellFormedParts([s[0], s[1]], Escape(s[2..]));
    } else {
      EscapeIsWellFormed(s[1..]);
      NoSurrogatesIsWellFormed(EscapeUnit(s[0]));
      WellFormedParts(EscapeUnit(s[0]), Escape(s[1..]));
    }
  }

  lemma QuotedIsWellFormed(s: Text)
    ensures WellFormed(Quoted(s))
  {
    EscapeIsWellFormed(s);
    NoSurrogatesIsWellFormed([QUOTE]);
    WellFormedParts([QUOTE], Escape(s));
    WellFormedParts([QUOTE] + Escape(s), [QUOTE]);
  }

  lemma FieldIsWellFormed(literal: string, value: Text, rest: Text)
    requires WellFormed(value) && WellFormed(rest)
    ensures WellFormed(Ascii(literal) + (value + rest))
  {
    NoSurrogatesIsWellFormed(Ascii(literal));
    WellFormedParts(value, rest);
    WellFormedParts(Ascii(literal), value + rest);
  }

  lemma CanonicalIsWellFormed(p: Payload)
    ensures WellFormed(Canonical(p))
  {
    NoSurrogatesIsWellFormed(END);
    NoSurrogatesIsWellFormed(NULL);
    QuotedIsWellFormed(p.merchant);
    QuotedIsWellFormed(p.campaign);
    QuotedIsWellFormed(p.action);
    QuotedIsWellFormed(p.amount);
    if p.user.Some? {
      QuotedIsWellFormed(p.user.value);
    }
    var amount := AMOUNT + (Quoted(p.amount) + END);
    FieldIsWellFormed(",\"amount\":", Quoted(p.amount), END);
    var action := ACTION + (Quoted(p.action) + amount);
    FieldIsWellFormed(",\"actionId\":", Quoted(p.action), amount);
    var campaign := CAMPAIGN + (Quoted(p.campaign) + action);
    FieldIsWellFormed(",\"campaignId\":", Quoted(p.campaign), action);
    var user := USER + (UserText(p.user) + campaign);
    FieldIsWellFormed(",\"userId\":", UserText(p.user), campaign);
    FieldIsWellFormed("{\"merchantId\":", Quoted(p.merchant), user);
  }

  // ---------------------------------------------------------------- the key

  /** HMAC-SHA256 under the service's secret, as an ideal function: no two texts that can be encoded share a digest. */
  ghost predicate CollisionFree(hmac: Text -> string) {
    forall a: Text, b: Text :: WellFormed(a) && WellFormed(b) && hmac(a) == hmac(b) ==> a == b
  }

  /** generateIdempotencyKey. */
  function IdempotencyKey(hmac: Text -> string, p: Payload): string {
    hmac(Canonical(p))
  }

  /** Two requests share a key exactly when they are the same request. */
  lemma SameKeyIffSameRequest(hmac: Text -> string, p: Payload, q: Payload)
    requires CollisionFree(hmac)
    ensures IdempotencyKey(hmac, p) == IdempotencyKey(hmac, q) <==> p == q
  {
    CanonicalIsInjective(p, q);
    CanonicalIsWellFormed(p);
    CanonicalIsWellFormed(q);
  }
}
