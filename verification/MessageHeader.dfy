/**
 The message header and its printed form, which is the associated data of every ciphertext. The printed form is
 the compact JSON object that a derived serializer writes (RFC 8259 sections 4 to 6); the parser below undoes it.
 */
module MessageHeader {
  import opened Wrappers
  import opened SymbolicCrypto

  datatype Header = Header(dhPublicKey: PublicKey, messageNumber: nat, previousChainLength: nat)

  const OPENING := "{\"dh_public_key\":["
  const NUMBER_FIELD := "],\"message_number\":"
  const LENGTH_FIELD := ",\"previous_chain_length\":"
  const CLOSING := "}"

  function Digit(d: nat): char
    requires d < 10
  {
    '0' + d as char
  }

  function Decimal(n: nat): string {
    if n < 10 then [Digit(n)] else Decimal(n / 10) + [Digit(n % 10)]
  }

  function Elements(bytes: seq<Byte>): string {
    if |bytes| == 0 then ""
    else if |bytes| == 1 then Decimal(bytes[0] as nat)
    else Decimal(bytes[0] as nat) + "," + Elements(bytes[1..])
  }

  function ToBytes(h: Header): string {
    OPENING + (Elements(h.dhPublicKey.bytes)
    + (NUMBER_FIELD + (Decimal(h.messageNumber)
    + (LENGTH_FIELD + (Decimal(h.previousChainLength) + CLOSING)))))
  }

  // ---------- The parser ----------

  predicate IsDigit(c: char) {
    '0' <= c <= '9'
  }

  function DigitCount(s: string): (n: nat)
    ensures n <= |s|
    ensures forall i :: 0 <= i < n ==> IsDigit(s[i])
    ensures n < |s| ==> !IsDigit(s[n])
  {
    if s == "" || !IsDigit(s[0]) then 0 else 1 + DigitCount(s[1..])
  }

  function Value(s: string): nat
    requires forall i :: 0 <= i < |s| ==> IsDigit(s[i])
  {
    if s == "" then 0
    else
      assert IsDigit(s[|s| - 1]);
      10 * Value(s[..|s| - 1]) + (s[|s| - 1] as int - '0' as int)
  }

  /** Reads a JSON integer: one or more digits, with no leading zero. */
  function ParseNumber(s: string): (r: Option<(nat, string)>)
    ensures r.Some? ==> |r.value.1| < |s|
  {
    var n := DigitCount(s);
    if n == 0 || (n > 1 && s[0] == '0') then None else Some((Value(s[..n]), s[n..]))
  }

  /** Reads the elements of a JSON array of bytes, up to whatever follows the last of them. */
  function ParseElements(s: string): Option<(seq<Byte>, string)>
    decreases |s|
  {
    match ParseNumber(s)
    case None => None
    case Some((n, rest)) =>
      if n >= 256 then None
      else if rest != "" && rest[0] == ',' then
        match ParseElements(rest[1..])
        case None => None
        case Some((bytes, tail)) => Some(([n as Byte] + bytes, tail))
      else Some(([n as Byte], rest))
  }

  function ParseArray(s: string): Option<(seq<Byte>, string)> {
    if s != "" && s[0] == ']' then Some(([], s)) else ParseElements(s)
  }

  /** Drops an expected literal from the front. */
  function Expect(s: string, literal: string): Option<string> {
    if literal <= s then Some(s[|literal|..]) else None
  }

  function ParseNumberField(s: string, name: string): Option<(nat, string)> {
    match Expect(s, name)
    case None => None
    case Some(rest) => ParseNumber(rest)
  }

  function ParseHeader(s: string): Option<Header> {
    match Expect(s, OPENING)
    case None => None
    case Some(s1) =>
      match ParseArray(s1)
      case None => None
      case Some((bytes, s2)) =>
        match ParseNumberField(s2, NUMBER_FIELD)
        case None => None
        case Some((number, s3)) =>
          match ParseNumberField(s3, LENGTH_FIELD)
          case None => None
          case Some((length, s4)) =>
            if s4 == CLOSING then Some(Header(PublicKey(bytes), number, length)) else None
  }

  // ---------- Printing and parsing are inverse ----------

  lemma {:induction false} DecimalValue(n: nat)
    ensures var d := Decimal(n);
            && |d| > 0
            && (forall i :: 0 <= i < |d| ==> IsDigit(d[i]))
            && Value(d) == n
            && (n > 0 ==> d[0] != '0')
            && (|d| > 1 ==> n > 0)
  {
    if n >= 10 {
      DecimalValue(n / 10);
      var d := Decimal(n);
      assert d[..|d| - 1] == Decimal(n / 10);
    }
  }

  /** A printed number, followed by anything but a digit, reads back as itself. */
  lemma NumberRoundTrip(n: nat, rest: string)
    requires rest != "" ==> !IsDigit(rest[0])
    ensures ParseNumber(Decimal(n) + rest) == Some((n, rest))
  {
    DecimalValue(n);
    var s := Decimal(n) + rest;
    var d, count := |Decimal(n)|, DigitCount(s);
    assert forall i :: 0 <= i < d ==> IsDigit(s[i]);
    assert d < |s| ==> s[d] == rest[0];
    assert count == d;
    assert s[..|Decimal(n)|] == Decimal(n) && s[|Decimal(n)|..] == rest;
  }

  lemma {:induction false} ElementsRoundTrip(bytes: seq<Byte>, rest: string)
    requires |bytes| > 0
    requires rest != "" && rest[0] == ']'
    ensures ParseElements(Elements(bytes) + rest) == Some((bytes, rest))
    decreases |bytes|
  {
    hide ParseNumber, Decimal;
    var first := Decimal(bytes[0] as nat);
    var s := Elements(bytes) + rest;
    if |bytes| == 1 {
      NumberRoundTrip(bytes[0] as nat, rest);
      assert bytes == [bytes[0]];
    } else {
      var tail := "," + (Elements(bytes[1..]) + rest);
      assert s == first + tail;
      NumberRoundTrip(bytes[0] as nat, tail);
      ElementsRoundTrip(bytes[1..], rest);
      assert tail[1..] == Elements(bytes[1..]) + rest;
      assert bytes == [bytes[0]] + bytes[1..];
    }
  }

  lemma ArrayRoundTrip(bytes: seq<Byte>, rest: string)
    requires rest != "" && rest[0] == ']'
    ensures ParseArray(Elements(bytes) + rest) == Some((bytes, rest))
  {
    if |bytes| == 0 {
      assert Elements(bytes) + rest == rest;
    } else {
      ElementsRoundTrip(bytes, rest);
      DecimalValue(bytes[0] as nat);
      assert (Elements(bytes) + rest)[0] == Decimal(bytes[0] as nat)[0];
    }
  }

  lemma ExpectDrops(literal: string, rest: string)
    ensures Expect(literal + rest, literal) == Some(rest)
  {
    assert (literal + rest)[|literal|..] == rest;
    assert (literal + rest)[..|literal|] == literal;
  }

  /** The parser undoes the printer on every header. */
  lemma HeaderRoundTrip(h: Header)
    ensures ParseHeader(ToBytes(h)) == Some(h)
  {
    hide Expect, ParseArray, ParseNumber;
    var s4 := CLOSING;
    var s3 := LENGTH_FIELD + (Decimal(h.previousChainLength) + s4);
    var s2 := NUMBER_FIELD + (Decimal(h.messageNumber) + s3);
    var s1 := Elements(h.dhPublicKey.bytes) + s2;
    ExpectDrops(OPENING, s1);
    ArrayRoundTrip(h.dhPublicKey.bytes, s2);
    ExpectDrops(NUMBER_FIELD, Decimal(h.messageNumber) + s3);
    NumberRoundTrip(h.messageNumber, s3);
    ExpectDrops(LENGTH_FIELD, Decimal(h.previousChainLength) + s4);
    NumberRoundTrip(h.previousChainLength, s4);
  }

  /** So associated data determines the header: equal printed forms come from equal headers. */
  lemma ToBytesInjective(h1: Header, h2: Header)
    requires ToBytes(h1) == ToBytes(h2)
    ensures h1 == h2
  {
    HeaderRoundTrip(h1);
    HeaderRoundTrip(h2);
  }

  // ---------- The members of the printed object, by name ----------

  /** What follows the first occurrence of a mark in a text. */
  function After(s: string, mark: string): Option<string> {
    if mark <= s then Some(s[|mark|..])
    else if s == "" then None
    else After(s[1..], mark)
  }

  /** The number that a printed object gives under a name. */
  function NumberNamed(s: string, name: string): Option<nat> {
    match After(s, "\"" + name + "\":")
    case None => None
    case Some(rest) =>
      match ParseNumber(rest)
      case None => None
      case Some((n, _)) => Some(n)
  }

  /** The array of bytes that a printed object gives under a name. */
  function BytesNamed(s: string, name: string): Option<seq<Byte>> {
    match After(s, "\"" + name + "\":[")
    case None => None
    case Some(rest) =>
      match ParseArray(rest)
      case None => None
      case Some((bytes, _)) => Some(bytes)
  }

  /** In no place does a quotation mark stand before the character. */
  predicate NeverQuoted(s: string, c: char) {
    forall i :: 0 <= i < |s| && s[i] == '"' ==> i + 1 < |s| && s[i + 1] != c
  }

  /** A search passes over a text in which the mark does not begin. */
  lemma {:induction false} AfterPasses(s: string, t: string, mark: string)
    requires |mark| >= 2 && mark[0] == '"' && NeverQuoted(s, mark[1])
    ensures After(s + t, mark) == After(t, mark)
    decreases |s|
  {
    if s == "" {
      assert s + t == t;
    } else {
      assert s[0] == '"' ==> s[1] != mark[1] && (s + t)[1] == s[1];
      assert (s + t)[1..] == s[1..] + t;
      forall i | 0 <= i < |s[1..]| && s[1..][i] == '"'
        ensures i + 1 < |s[1..]| && s[1..][i + 1] != mark[1]
      {
        assert s[i + 1] == '"';
      }
      AfterPasses(s[1..], t, mark);
    }
  }

  lemma AfterFinds(mark: string, rest: string)
    ensures After(mark + rest, mark) == Some(rest)
  {
    assert (mark + rest)[..|mark|] == mark && (mark + rest)[|mark|..] == rest;
  }

  lemma DecimalNeverQuoted(n: nat, c: char)
    ensures NeverQuoted(Decimal(n), c)
  {
    DecimalValue(n);
    forall i | 0 <= i < |Decimal(n)|
      ensures Decimal(n)[i] != '"'
    {
      assert IsDigit(Decimal(n)[i]);
    }
  }

  lemma {:induction false} ElementsNeverQuoted(bytes: seq<Byte>, c: char)
    ensures NeverQuoted(Elements(bytes), c)
  {
    if |bytes| > 0 {
      DecimalNeverQuoted(bytes[0] as nat, c);
      if |bytes| > 1 {
        ElementsNeverQuoted(bytes[1..], c);
      }
    }
  }

  lemma LiteralsNeverQuoted()
    ensures NeverQuoted("{", 'd') && NeverQuoted(OPENING, 'm') && NeverQuoted("],", 'm')
    ensures NeverQuoted(OPENING, 'p') && NeverQuoted(NUMBER_FIELD, 'p') && NeverQuoted(",", 'p')
  {
  }

  function FromLength(h: Header): string {
    LENGTH_FIELD + (Decimal(h.previousChainLength) + CLOSING)
  }

  /** The printed object from its second and from its third member on. */
  function FromNumber(h: Header): string {
    NUMBER_FIELD + (Decimal(h.messageNumber) + FromLength(h))
  }

  /** The key is printed under the name `dh_public_key`. */
  lemma KeyNamed(h: Header)
    ensures BytesNamed(ToBytes(h), "dh_public_key") == Some(h.dhPublicKey.bytes)
  {
    var mark := "\"" + "dh_public_key" + "\":[";
    var rest := Elements(h.dhPublicKey.bytes) + FromNumber(h);
    assert OPENING == "{" + mark;
    assert ToBytes(h) == "{" + (mark + rest);
    LiteralsNeverQuoted();
    AfterPasses("{", mark + rest, mark);
    AfterFinds(mark, rest);
    ArrayRoundTrip(h.dhPublicKey.bytes, FromNumber(h));
  }

  /** The message number is printed under the name `message_number`. */
  lemma NumberNamedRight(h: Header)
    ensures NumberNamed(ToBytes(h), "message_number") == Some(h.messageNumber)
  {
    var mark := "\"" + "message_number" + "\":";
    var elements, rest := Elements(h.dhPublicKey.bytes), Decimal(h.messageNumber) + FromLength(h);
    hide ParseNumber, After, Decimal, Elements, NeverQuoted;
    assert NUMBER_FIELD == "]," + mark;
    assert FromNumber(h) == "]," + (mark + rest);
    LiteralsNeverQuoted();
    ElementsNeverQuoted(h.dhPublicKey.bytes, 'm');
    AfterPasses(OPENING, elements + FromNumber(h), mark);
    AfterPasses(elements, FromNumber(h), mark);
    AfterPasses("],", mark + rest, mark);
    AfterFinds(mark, rest);
    NumberRoundTrip(h.messageNumber, FromLength(h));
  }

  /** The length of the chain before is printed under the name `previous_chain_length`. */
  lemma LengthNamedRight(h: Header)
    ensures NumberNamed(ToBytes(h), "previous_chain_length") == Some(h.previousChainLength)
  {
    var mark := "\"" + "previous_chain_length" + "\":";
    var elements, number := Elements(h.dhPublicKey.bytes), Decimal(h.messageNumber);
    var rest := Decimal(h.previousChainLength) + CLOSING;
    hide ParseNumber, After, Decimal, Elements, NeverQuoted;
    assert LENGTH_FIELD == "," + mark;
    assert FromLength(h) == "," + (mark + rest);
    LiteralsNeverQuoted();
    ElementsNeverQuoted(h.dhPublicKey.bytes, 'p');
    DecimalNeverQuoted(h.messageNumber, 'p');
    AfterPasses(OPENING, elements + FromNumber(h), mark);
    AfterPasses(elements, FromNumber(h), mark);
    AfterPasses(NUMBER_FIELD, number + FromLength(h), mark);
    AfterPasses(number, FromLength(h), mark);
    AfterPasses(",", mark + rest, mark);
    AfterFinds(mark, rest);
    NumberRoundTrip(h.previousChainLength, CLOSING);
  }

  /** Each field of a header is found in its printed form under the field's own name. */
  lemma FieldsByName(h: Header)
    ensures BytesNamed(ToBytes(h), "dh_public_key") == Some(h.dhPublicKey.bytes)
    ensures NumberNamed(ToBytes(h), "message_number") == Some(h.messageNumber)
    ensures NumberNamed(ToBytes(h), "previous_chain_length") == Some(h.previousChainLength)
  {
    hide *;
    KeyNamed(h);
    NumberNamedRight(h);
    LengthNamedRight(h);
  }

  lemma PrintedBytes()
    ensures Elements([7, 0, 255]) == "7,0,255"
  {
    var bytes: seq<Byte> := [7, 0, 255];
    assert bytes[1..] == [0, 255] && bytes[1..][1..] == [255];
    assert Decimal(255) == Decimal(25) + "5" && Decimal(25) == "25";
    assert Elements([255]) == "255" && Elements(bytes[1..]) == "0,255";
  }

  lemma PrintedNumbers()
    ensures Decimal(90) == "90" && Decimal(105) == "105"
  {
    assert Decimal(10) == "10";
  }

  /** One header, printed in full. */
  lemma PrintedExample()
    ensures ToBytes(Header(PublicKey([7, 0, 255]), 90, 105))
         == "{\"dh_public_key\":[7,0,255" + "],\"message_number\":90" + ",\"previous_chain_length\":105}"
  {
    hide Elements, Decimal;
    PrintedBytes();
    PrintedNumbers();
    var h := Header(PublicKey([7, 0, 255]), 90, 105);
    var length, number := ",\"previous_chain_length\":105}", "],\"message_number\":90";
    assert FromLength(h) == length;
    assert NUMBER_FIELD + "90" == number;
    assert FromNumber(h) == NUMBER_FIELD + ("90" + length) == (NUMBER_FIELD + "90") + length;
    assert OPENING + "7,0,255" == "{\"dh_public_key\":[7,0,255";
    assert ToBytes(h) == OPENING + ("7,0,255" + FromNumber(h)) == (OPENING + "7,0,255") + FromNumber(h);
  }
}
