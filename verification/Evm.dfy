/** provider/wallet/evm: the EIP-4361 message a wallet signs, the EIP-191 framing that is hashed,
    and EIP-55 addresses. A Go string is a sequence of bytes; here each byte is a character. */
module Evm {
  import opened Entities
  import opened Strings

  // ----- decimal numbers -----

  function Digit(d: nat): char
    requires d < 10
  {
    ('0' as int + d) as char
  }

  predicate AllDigits(s: string) {
    forall i :: 0 <= i < |s| ==> '0' <= s[i] <= '9'
  }

  function Decimal(n: nat): (s: string)
    ensures s != "" && AllDigits(s)
  {
    if n < 10 then [Digit(n)] else Decimal(n / 10) + [Digit(n % 10)]
  }

  function Itoa(n: int): string {
    if n < 0 then "-" + Decimal(-n) else Decimal(n)
  }

  function Undecimal(s: string): nat
    requires AllDigits(s)
  {
    if s == "" then 0 else 10 * Undecimal(s[..|s| - 1]) + (s[|s| - 1] as int - '0' as int)
  }

  function Atoi(s: string): Option<int> {
    if s != "" && s[0] == '-' then (if AllDigits(s[1..]) then Some(0 - Undecimal(s[1..])) else None)
    else if AllDigits(s) then Some(Undecimal(s))
    else None
  }

  lemma {:induction false} DecimalRoundTrip(n: nat)
    ensures Undecimal(Decimal(n)) == n
  {
    if n >= 10 {
      DecimalRoundTrip(n / 10);
      var s := Decimal(n);
      assert s[..|s| - 1] == Decimal(n / 10);
    }
  }

  lemma ItoaRoundTrip(n: int)
    ensures Atoi(Itoa(n)) == Some(n)
  {
    var digits := Decimal(if n < 0 then -n else n);
    DecimalRoundTrip(if n < 0 then -n else n);
    if n < 0 {
      SignedRoundTrip(digits);
    }
  }

  lemma SignedRoundTrip(digits: string)
    requires AllDigits(digits)
    ensures Atoi("-" + digits) == Some(0 - Undecimal(digits))
  {
    assert ("-" + digits)[1..] == digits;
  }

  lemma {:induction false} LongerNumbers(n: nat, m: nat)
    requires n <= m
    ensures |Decimal(n)| <= |Decimal(m)|
  {
    if n >= 10 {
      LongerNumbers(n / 10, m / 10);
    }
  }

  // ----- lines -----

  function Split(s: string): (lines: seq<string>)
    ensures lines != []
  {
    if s == "" then [""]
    else
      var rest := Split(s[1..]);
      if s[0] == '\n' then [""] + rest else [[s[0]] + rest[0]] + rest[1..]
  }

  function Join(lines: seq<string>): string
    requires lines != []
  {
    if |lines| == 1 then lines[0] else lines[0] + "\n" + Join(lines[1..])
  }

  lemma {:induction false} SplitFirst(line: string, rest: string)
    requires OneLine(line)
    ensures Split(line) == [line]
    ensures Split(line + "\n" + rest) == [line] + Split(rest)
  {
    if line == "" {
      assert line + "\n" + rest == "\n" + rest;
      assert ("\n" + rest)[1..] == rest;
    } else {
      SplitFirst(line[1..], rest);
      var s := line + "\n" + rest;
      assert s[1..] == line[1..] + "\n" + rest;
      assert [line[0]] + line[1..] == line;
    }
  }

  lemma {:induction false} SplitJoin(lines: seq<string>)
    requires lines != [] && forall i :: 0 <= i < |lines| ==> OneLine(lines[i])
    ensures Split(Join(lines)) == lines
  {
    if |lines| == 1 {
      SplitFirst(lines[0], "");
    } else {
      SplitJoin(lines[1..]);
      SplitFirst(lines[0], Join(lines[1..]));
    }
  }

  /** Writing a line break and a line adds one line. */
  lemma {:induction false} JoinSnoc(lines: seq<string>, line: string)
    requires lines != []
    ensures Join(lines + [line]) == Join(lines) + "\n" + line
  {
    if |lines| == 1 {
      assert (lines + [line])[1..] == [line];
    } else {
      assert (lines + [line])[1..] == lines[1..] + [line];
      JoinSnoc(lines[1..], line);
      assert lines[0] + "\n" + (Join(lines[1..]) + "\n" + line) == lines[0] + "\n" + Join(lines[1..]) + "\n" + line;
    }
  }

  // ----- the EIP-4361 message -----

  // Two halves: what holds of each character is proved of short literals.
  const HEADER := " wants you to sign in" + " with your Ethereum account:"

  /** The fields of a message; an empty statement means none. Times are their RFC 3339 text. */
  datatype Fields = Fields(
    domain: string, address: string, statement: string, uri: string, chainId: int, nonce: string,
    issuedAt: string, expiresAt: Option<string>)

  /** What WithWallet and the callers of BuildMessage guarantee: no field breaks a line. */
  predicate SingleLine(m: Fields) {
    && OneLine(m.domain) && OneLine(m.address) && OneLine(m.statement) && OneLine(m.uri) && OneLine(m.nonce)
    && OneLine(m.issuedAt) && (m.expiresAt.Some? ==> OneLine(m.expiresAt.value))
  }

  function Tail(m: Fields): seq<string> {
    ["URI: " + m.uri, "Version: 1", "Chain ID: " + Itoa(m.chainId), "Nonce: " + m.nonce, "Issued At: " + m.issuedAt]
    + if m.expiresAt.Some? then ["Expiration Time: " + m.expiresAt.value] else []
  }

  function Head(m: Fields): seq<string> {
    [m.domain + HEADER, m.address, ""] + if m.statement == "" then [""] else [m.statement, ""]
  }

  function Lines(m: Fields): seq<string> {
    Head(m) + Tail(m)
  }

  /** The text of EIP-4361 up to the blank line before the fields. */
  function HeadText(m: Fields): string {
    var start := m.domain + (" wants you to sign in" + " with your Ethereum account:") + "\n" + m.address + "\n" + "";
    (if m.statement == "" then start else start + "\n" + m.statement) + "\n" + ""
  }

  /** The fields, each on its line. */
  function WithFields(start: string, m: Fields): string {
    var b := start + "\n" + ("URI: " + m.uri) + "\n" + "Version: 1" + "\n" + ("Chain ID: " + Itoa(m.chainId))
             + "\n" + ("Nonce: " + m.nonce) + "\n" + ("Issued At: " + m.issuedAt);
    if m.expiresAt.Some? then b + "\n" + ("Expiration Time: " + m.expiresAt.value) else b
  }

  /** Writes the message line after line; they are the lines of EIP-4361. */
  method BuildMessage(m: Fields) returns (b: string)
    ensures b == Join(Lines(m)) && b == WithFields(HeadText(m), m)
  {
    b := WriteHead(m);
    b := WriteTail(m, b, Head(m));
  }

  method WriteHead(m: Fields) returns (b: string)
    ensures b == Join(Head(m)) && b == HeadText(m)
  {
    b := m.domain + HEADER;
    ghost var lines := [b];
    b, lines := WriteLine(b, lines, m.address);
    b, lines := WriteLine(b, lines, "");
    if m.statement != "" {
      b, lines := WriteLine(b, lines, m.statement);
    }
    b, lines := WriteLine(b, lines, "");
    assert lines == Head(m);
  }

  method WriteTail(m: Fields, start: string, ghost head: seq<string>) returns (b: string)
    requires head != [] && start == Join(head)
    ensures b == Join(head + Tail(m)) && b == WithFields(start, m)
  {
    var chainId := Itoa(m.chainId);
    b := start;
    ghost var lines := head;
    b, lines := WriteLine(b, lines, "URI: " + m.uri);
    b, lines := WriteLine(b, lines, "Version: 1");
    b, lines := WriteLine(b, lines, "Chain ID: " + chainId);
    b, lines := WriteLine(b, lines, "Nonce: " + m.nonce);
    b, lines := WriteLine(b, lines, "Issued At: " + m.issuedAt);
    if m.expiresAt.Some? {
      b, lines := WriteLine(b, lines, "Expiration Time: " + m.expiresAt.value);
    }
    assert lines == head + Tail(m);
  }

  method WriteLine(b: string, ghost lines: seq<string>, line: string) returns (b': string, ghost lines': seq<string>)
    requires lines != [] && b == Join(lines)
    ensures b' == b + "\n" + line && lines' == lines + [line] && b' == Join(lines')
  {
    b' := b + "\n" + line;
    lines' := lines + [line];
    JoinSnoc(lines, line);
  }

  // ----- reading a message back -----

  function Cut(prefix: string, s: string): Option<string> {
    if prefix <= s then Some(s[|prefix|..]) else None
  }

  function CutHeader(s: string): Option<string> {
    if |HEADER| <= |s| && s[|s| - |HEADER|..] == HEADER then Some(s[..|s| - |HEADER|]) else None
  }

  function ParseTail(domain: string, address: string, statement: string, tail: seq<string>): Option<Fields> {
    if !(5 <= |tail| <= 6 && tail[1] == "Version: 1") then None
    else
      var uri, chain := Cut("URI: ", tail[0]), Cut("Chain ID: ", tail[2]);
      var nonce, issued := Cut("Nonce: ", tail[3]), Cut("Issued At: ", tail[4]);
      var expires := if |tail| == 6 then Cut("Expiration Time: ", tail[5]) else None;
      if uri.None? || chain.None? || nonce.None? || issued.None? || (|tail| == 6 && expires.None?) then None
      else if Atoi(chain.value).None? then None
      else Some(Fields(domain, address, statement, uri.value, Atoi(chain.value).value, nonce.value, issued.value, expires))
  }

  function Parse(text: string): Option<Fields> {
    var lines := Split(text);
    if |lines| < 5 || CutHeader(lines[0]).None? || lines[2] != "" then None
    else if lines[3] == "" then ParseTail(CutHeader(lines[0]).value, lines[1], "", lines[4..])
    else if lines[4] != "" then None
    else ParseTail(CutHeader(lines[0]).value, lines[1], lines[3], lines[5..])
  }

  lemma CutPrefix(prefix: string, s: string)
    ensures Cut(prefix, prefix + s) == Some(s)
  {
    assert (prefix + s)[|prefix|..] == s;
  }

  lemma ParseTailRoundTrip(m: Fields)
    ensures ParseTail(m.domain, m.address, m.statement, Tail(m)) == Some(m)
  {
    CutPrefix("URI: ", m.uri);
    CutPrefix("Chain ID: ", Itoa(m.chainId));
    CutPrefix("Nonce: ", m.nonce);
    CutPrefix("Issued At: ", m.issuedAt);
    ItoaRoundTrip(m.chainId);
    if m.expiresAt.Some? {
      CutPrefix("Expiration Time: ", m.expiresAt.value);
    }
  }

  lemma {:induction false} NumbersAreOneLine(n: int)
    ensures OneLine(Itoa(n))
  {
    var s := if n < 0 then Decimal(-n) else Decimal(n);
    assert AllDigits(s);
  }

  lemma OneLineConcat(a: string, b: string)
    requires OneLine(a) && OneLine(b)
    ensures OneLine(a + b)
  {
  }

  lemma LinesAreLines(m: Fields)
    requires SingleLine(m)
    ensures forall i :: 0 <= i < |Lines(m)| ==> OneLine(Lines(m)[i])
  {
    NumbersAreOneLine(m.chainId);
    OneLineConcat(" wants you to sign in", " with your Ethereum account:");
    OneLineConcat(m.domain, HEADER);
    OneLineConcat("URI: ", m.uri);
    OneLineConcat("Chain ID: ", Itoa(m.chainId));
    OneLineConcat("Nonce: ", m.nonce);
    OneLineConcat("Issued At: ", m.issuedAt);
    if m.expiresAt.Some? { OneLineConcat("Expiration Time: ", m.expiresAt.value); }
  }

  /** The text a wallet signs determines every field that went into it. */
  lemma MessageRoundTrip(m: Fields)
    requires SingleLine(m)
    ensures Parse(Join(Lines(m))) == Some(m)
  {
    LinesAreLines(m);
    SplitJoin(Lines(m));
    ParseTailRoundTrip(m);
    var lines := Lines(m);
    assert lines[0][..|m.domain|] == m.domain && lines[0][|m.domain|..] == HEADER;
    assert m.statement == "" ==> lines[4..] == Tail(m);
    assert m.statement != "" ==> lines[5..] == Tail(m);
  }

  // ----- the EIP-191 frame -----

  /** The bytes personal_sign hashes. */
  function Frame(message: string): string {
    "\U{19}Ethereum Signed Message:\n" + Itoa(|message|) + message
  }

  /** The length prefix makes framing injective, digits at the start of a message included. */
  lemma FramesAreInjective(m: string, m': string)
    requires Frame(m) == Frame(m')
    ensures m == m'
  {
    var prefix := "\U{19}Ethereum Signed Message:\n";
    if |m| <= |m'| { LongerNumbers(|m|, |m'|); } else { LongerNumbers(|m'|, |m|); }
    assert |Frame(m)| == |prefix| + |Itoa(|m|)| + |m|;
    assert |Frame(m')| == |prefix| + |Itoa(|m'|)| + |m'|;
    assert |m| == |m'|;
    assert m == Frame(m)[|prefix| + |Itoa(|m|)|..];
    assert m' == Frame(m')[|prefix| + |Itoa(|m'|)|..];
  }

  /** So equal hashed bytes mean equal fields. */
  lemma SignedBytesDetermineFields(m: Fields, m': Fields)
    requires SingleLine(m) && SingleLine(m') && Frame(Join(Lines(m))) == Frame(Join(Lines(m')))
    ensures m == m'
  {
    FramesAreInjective(Join(Lines(m)), Join(Lines(m')));
    MessageRoundTrip(m);
    MessageRoundTrip(m');
  }
}
