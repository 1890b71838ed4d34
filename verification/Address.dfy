/** EIP-55 addresses of provider/wallet/evm. Keccak-256 is a parameter: any function to 32 bytes. */
module Address {
  import opened Entities
  import opened Strings

  type Byte = b: int | 0 <= b < 256
  type Hash = h: seq<Byte> | |h| == 32 witness seq(32, i => 0)

  const ADDRESS_HEX_LEN := 40

  predicate IsLowerHex(c: char) {
    '0' <= c <= '9' || 'a' <= c <= 'f'
  }

  predicate IsHex(c: char) {
    IsLowerHex(c) || 'A' <= c <= 'F'
  }

  predicate Digits(s: string) {
    |s| == ADDRESS_HEX_LEN && forall i :: 0 <= i < |s| ==> IsHex(s[i])
  }

  /** The i-th half byte of a hash, high half first. */
  function Nibble(hash: Hash, i: nat): int
    requires i < ADDRESS_HEX_LEN
  {
    if i % 2 == 1 then hash[i / 2] % 16 else hash[i / 2] / 16
  }

  /** A letter is uppercased when the matching nibble of the hash is at least 8. */
  function Cased(lower: string, hash: Hash): string
    requires |lower| == ADDRESS_HEX_LEN
  {
    seq(|lower|, i requires 0 <= i < |lower| =>
      if lower[i] >= 'a' && Nibble(hash, i) >= 8 then UpperChar(lower[i]) else lower[i])
  }

  /** The i-th hex digit of a hash as it is written out: the high half of a byte comes first. */
  function HalfByte(hash: Hash, i: nat): int
    requires i < 64
  {
    if i % 2 == 0 then hash[i / 2] / 16 else hash[i / 2] - 16 * (hash[i / 2] / 16)
  }

  /** The in-place loop over a copy of the digits. */
  method Checksum(keccak: string -> Hash, lowerDigits: string) returns (r: string)
    requires |lowerDigits| == ADDRESS_HEX_LEN && forall i :: 0 <= i < |lowerDigits| ==> IsLowerHex(lowerDigits[i])
    ensures r == "0x" + Cased(lowerDigits, keccak(lowerDigits))
    ensures |r| == 42 && r[..2] == "0x" && forall i :: 0 <= i < 40 ==>
              r[2 + i] == if 'a' <= lowerDigits[i] <= 'f' && HalfByte(keccak(lowerDigits), i) >= 8
                          then (lowerDigits[i] as int - 32) as char else lowerDigits[i]
  {
    var hash := keccak(lowerDigits);
    var out := new char[|lowerDigits|](i requires 0 <= i < |lowerDigits| => lowerDigits[i]);
    for i := 0 to out.Length
      invariant forall j :: 0 <= j < out.Length ==>
        out[j] == if j < i then Cased(lowerDigits, hash)[j] else lowerDigits[j]
    {
      var c := out[i];
      var nibble := hash[i / 2] / 16;
      if i % 2 == 1 {
        nibble := hash[i / 2] % 16;
      }
      if c >= 'a' && nibble >= 8 {
        out[i] := c - 'a' + 'A';
      }
    }
    assert out[..] == Cased(lowerDigits, hash);
    r := "0x" + out[..];
  }

  /** The canonical form of an address, or None. One case throughout carries no checksum. */
  function NormalizeAddress(keccak: string -> Hash, addr: string): Option<string> {
    if !("0x" <= addr && Digits(addr[2..])) then None
    else
      var digits := addr[2..];
      var lower := Lower(digits);
      var checksummed := Cased(lower, keccak(lower));
      if digits != lower && digits != Upper(digits) && digits != checksummed then None
      else Some("0x" + checksummed)
  }

  lemma LowerOfCased(lower: string, hash: Hash)
    requires |lower| == ADDRESS_HEX_LEN && forall i :: 0 <= i < |lower| ==> IsLowerHex(lower[i])
    ensures Lower(Cased(lower, hash)) == lower && Digits(Cased(lower, hash))
  {
    var cased := Cased(lower, hash);
    forall i | 0 <= i < |lower|
      ensures LowerChar(cased[i]) == lower[i] && IsHex(cased[i])
    {
      assert IsLowerHex(lower[i]);
    }
  }

  lemma LowerIsLower(digits: string)
    requires Digits(digits)
    ensures |Lower(digits)| == ADDRESS_HEX_LEN && forall i :: 0 <= i < |digits| ==> IsLowerHex(Lower(digits)[i])
  {
  }

  /** Normalizing keeps the digits, its output is accepted, and normalizing again changes nothing. */
  lemma NormalizeIsIdempotent(keccak: string -> Hash, addr: string)
    requires NormalizeAddress(keccak, addr).Some?
    ensures var canonical := NormalizeAddress(keccak, addr).value;
            && |canonical| == 2 + ADDRESS_HEX_LEN && Lower(canonical[2..]) == Lower(addr[2..])
            && NormalizeAddress(keccak, canonical) == Some(canonical)
  {
    var lower := Lower(addr[2..]);
    LowerIsLower(addr[2..]);
    LowerOfCased(lower, keccak(lower));
    assert ("0x" + Cased(lower, keccak(lower)))[2..] == Cased(lower, keccak(lower));
  }

  /** Two accepted spellings name one account exactly when their digits agree ignoring case. */
  lemma SameAccountIffSameDigits(keccak: string -> Hash, a: string, b: string)
    requires NormalizeAddress(keccak, a).Some? && NormalizeAddress(keccak, b).Some?
    ensures NormalizeAddress(keccak, a) == NormalizeAddress(keccak, b) <==> Lower(a[2..]) == Lower(b[2..])
  {
    NormalizeIsIdempotent(keccak, a);
    NormalizeIsIdempotent(keccak, b);
  }

  predicate HasUpper(digits: string) {
    exists i :: 0 <= i < |digits| && 'A' <= digits[i] <= 'F'
  }

  predicate HasLower(digits: string) {
    exists i :: 0 <= i < |digits| && 'a' <= digits[i] <= 'f'
  }

  /** The case of the k-th character is the one the checksum asks for. */
  predicate CaseFits(hash: Hash, digits: string, k: nat)
    requires |digits| == ADDRESS_HEX_LEN && k < |digits|
  {
    '0' <= digits[k] <= '9' || ('A' <= digits[k] <= 'F' <==> HalfByte(hash, k) >= 8)
  }

  /** What catches a mistyped address: forty digits are refused exactly when both cases occur
      and some letter has the wrong one. */
  lemma MistypedIffMixedAndWrong(keccak: string -> Hash, digits: string)
    requires |digits| == 40
    requires forall i :: 0 <= i < 40 ==> '0' <= digits[i] <= '9' || 'a' <= digits[i] <= 'f' || 'A' <= digits[i] <= 'F'
    ensures NormalizeAddress(keccak, "0x" + digits).None? <==>
              && HasUpper(digits) && HasLower(digits)
              && exists k :: 0 <= k < |digits| && !CaseFits(keccak(Lower(digits)), digits, k)
  {
    assert ("0x" + digits)[2..] == digits;
    var lower := Lower(digits);
    var hash := keccak(lower);
    var cased := Cased(lower, hash);
    forall i | 0 <= i < |digits|
      ensures lower[i] != digits[i] <==> 'A' <= digits[i] <= 'F'
      ensures Upper(digits)[i] != digits[i] <==> 'a' <= digits[i] <= 'f'
      ensures cased[i] == digits[i] <==> CaseFits(hash, digits, i)
    {
      assert IsHex(digits[i]);
    }
    assert HasUpper(digits) <==> digits != lower;
    assert HasLower(digits) <==> digits != Upper(digits);
  }

  /** And anything but 0x with forty hex digits is refused; what is accepted comes back with the
      case of every letter as the checksum asks. */
  lemma OnlyAddressesAreAccepted(keccak: string -> Hash, addr: string)
    requires NormalizeAddress(keccak, addr).Some?
    ensures |addr| == 42 && addr[0] == '0' && addr[1] == 'x'
    ensures forall i :: 2 <= i < 42 ==> '0' <= addr[i] <= '9' || 'a' <= addr[i] <= 'f' || 'A' <= addr[i] <= 'F'
    ensures var canonical := NormalizeAddress(keccak, addr).value;
            |canonical| == 42 && forall k :: 0 <= k < 40 ==> CaseFits(keccak(Lower(addr[2..])), canonical[2..], k)
  {
    var digits := addr[2..];
    LowerIsLower(digits);
    assert forall i :: 2 <= i < 42 ==> addr[i] == digits[i - 2];
    var lower := Lower(digits);
    var cased := Cased(lower, keccak(lower));
    assert NormalizeAddress(keccak, addr).value[2..] == cased;
    forall k | 0 <= k < 40
      ensures CaseFits(keccak(lower), cased, k)
    {
      assert IsLowerHex(lower[k]);
    }
  }
}
